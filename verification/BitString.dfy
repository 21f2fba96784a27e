/**
 * Numbers as strings of bits, the highest first, with the shifts and masks of the program, and the regrouping
 * of bits into numbers of another width (`convert_bits` of deps/ledger-zxlib/src/segwit_addr.c).
 */
module BitString {
  import opened Bytes

  function Shl(v: nat, a: nat): nat { if a == 0 then v else 2 * Shl(v, a - 1) }

  function Shr(v: nat, a: nat): nat { if a == 0 then v else Shr(v / 2, a - 1) }

  /** The low `w` bits. */
  function Low(v: nat, w: nat): nat { if w == 0 then 0 else 2 * Low(v / 2, w - 1) + v % 2 }

  function ToBits(v: nat, w: nat): (r: seq<bool>)
    ensures |r| == w
  {
    if w == 0 then [] else ToBits(v / 2, w - 1) + [v % 2 == 1]
  }

  function FromBits(b: seq<bool>): nat {
    if b == [] then 0 else 2 * FromBits(b[..|b| - 1]) + (if b[|b| - 1] then 1 else 0)
  }

  function Falses(n: nat): (r: seq<bool>)
    ensures |r| == n
  {
    seq(n, _ => false)
  }

  function AllBits(vs: seq<nat>, w: nat): (r: seq<bool>)
    ensures |r| == |vs| * w
  {
    if vs == [] then []
    else
      Times(|vs|, w);
      ToBits(vs[0], w) + AllBits(vs[1..], w)
  }

  lemma Times(n: nat, w: nat)
    requires n > 0
    ensures n * w == w + (n - 1) * w
  {
  }

  // ---------------------------------------------------------------- shifts and masks on bits

  lemma {:induction false} LowBits(v: nat, k: nat, w: nat)
    requires w <= k
    ensures ToBits(Low(v, k), w) == ToBits(v, w)
    decreases w
  {
    if w > 0 {
      LowBits(v / 2, k - 1, w - 1);
      assert Low(v, k) / 2 == Low(v / 2, k - 1);
    }
  }

  lemma {:induction false} ShrBits(v: nat, a: nat, b: nat)
    ensures ToBits(v, a + b) == ToBits(Shr(v, b), a) + ToBits(v, b)
    decreases b
  {
    if b > 0 {
      ShrBits(v / 2, a, b - 1);
      assert ToBits(v, a + b) == ToBits(v / 2, a + b - 1) + [v % 2 == 1];
    } else {
      assert ToBits(v, a) + [] == ToBits(v, a);
    }
  }

  lemma {:induction false} ShlAdd(v: nat, a: nat, x: nat)
    requires x < Shl(1, a)
    ensures Shr(Shl(v, a) + x, a) == v && ToBits(Shl(v, a) + x, a) == ToBits(x, a)
    decreases a
  {
    if a > 0 {
      assert (Shl(v, a) + x) / 2 == Shl(v, a - 1) + x / 2;
      ShlAdd(v, a - 1, x / 2);
    }
  }

  /** Shifting left and adding puts the bits of what is added behind. */
  lemma ShlBits(v: nat, w: nat, a: nat, x: nat)
    requires x < Shl(1, a)
    ensures ToBits(Shl(v, a) + x, w + a) == ToBits(v, w) + ToBits(x, a)
  {
    ShlAdd(v, a, x);
    ShrBits(Shl(v, a) + x, w, a);
  }

  lemma {:induction false} LowBound(v: nat, w: nat)
    ensures Low(v, w) < Shl(1, w) && (v < Shl(1, w) ==> Low(v, w) == v)
    decreases w
  {
    if w > 0 { LowBound(v / 2, w - 1); }
  }

  lemma {:induction false} FromToBits(v: nat, w: nat)
    ensures FromBits(ToBits(v, w)) == Low(v, w)
    decreases w
  {
    if w > 0 {
      FromToBits(v / 2, w - 1);
      assert ToBits(v, w)[..w - 1] == ToBits(v / 2, w - 1);
    }
  }

  lemma {:induction false} ToFromBits(b: seq<bool>)
    ensures ToBits(FromBits(b), |b|) == b && FromBits(b) < Shl(1, |b|)
    decreases |b|
  {
    if b != [] { ToFromBits(b[..|b| - 1]); }
  }

  lemma {:induction false} LowIsZero(v: nat, w: nat)
    ensures Low(v, w) == 0 <==> true !in ToBits(v, w)
    decreases w
  {
    if w > 0 { LowIsZero(v / 2, w - 1); }
  }

  lemma {:induction false} NoTrue(b: seq<bool>)
    requires true !in b
    ensures b == Falses(|b|)
  {
    forall i | 0 <= i < |b| ensures !b[i] { assert b[i] in b; }
  }

  // ---------------------------------------------------------------- regrouping

  /** The whole groups of `w` bits, as numbers. */
  function Split(b: seq<bool>, w: nat): seq<nat>
    requires w > 0
    decreases |b|
  {
    if |b| < w then [] else [FromBits(b[..w])] + Split(b[w..], w)
  }

  /** The bits behind the whole groups. */
  function Rest(b: seq<bool>, w: nat): (r: seq<bool>)
    requires w > 0
    ensures |r| < w
    decreases |b|
  {
    if |b| < w then b else Rest(b[w..], w)
  }

  predicate Below(vs: seq<nat>, w: nat) { forall i :: 0 <= i < |vs| ==> vs[i] < Shl(1, w) }

  /** Numbers of `w` bits followed by less than `w` bits split into just these. */
  lemma {:induction false} SplitAllBits(vs: seq<nat>, w: nat, rest: seq<bool>)
    requires w > 0 && |rest| < w && Below(vs, w)
    ensures Split(AllBits(vs, w) + rest, w) == vs && Rest(AllBits(vs, w) + rest, w) == rest
    decreases |vs|
  {
    hide ToBits, FromBits, Low;
    if vs == [] {
      assert AllBits(vs, w) + rest == rest;
    } else {
      var b := AllBits(vs, w) + rest;
      assert b[..w] == ToBits(vs[0], w);
      assert b[w..] == AllBits(vs[1..], w) + rest;
      FromToBits(vs[0], w);
      LowBound(vs[0], w);
      SplitAllBits(vs[1..], w, rest);
    }
  }

  lemma {:induction false} AllBitsSplit(b: seq<bool>, w: nat)
    requires w > 0
    ensures AllBits(Split(b, w), w) + Rest(b, w) == b && Below(Split(b, w), w)
    decreases |b|
  {
    if |b| >= w {
      AllBitsSplit(b[w..], w);
      ToFromBits(b[..w]);
      var vs := Split(b, w);
      assert vs[1..] == Split(b[w..], w) && vs[0] == FromBits(b[..w]);
      assert AllBits(vs, w) + Rest(b, w) == b[..w] + (AllBits(vs[1..], w) + Rest(b[w..], w));
      forall i | 0 <= i < |vs| ensures vs[i] < Shl(1, w) { if i > 0 { assert vs[i] == Split(b[w..], w)[i - 1]; } }
    } else {
      assert AllBits([], w) + b == b;
    }
  }

  lemma {:induction false} AllBitsConcat(a: seq<nat>, b: seq<nat>, w: nat)
    ensures AllBits(a + b, w) == AllBits(a, w) + AllBits(b, w)
    decreases |a|
  {
    if a == [] {
      assert a + b == b;
    } else {
      assert (a + b)[1..] == a[1..] + b;
      AllBitsConcat(a[1..], b, w);
    }
  }

  lemma AllBitsOne(v: nat, w: nat)
    ensures AllBits([v], w) == ToBits(v, w)
  {
    assert [v][1..] == [] && AllBits([], w) == [];
  }

  /** The bits that are left, filled up with zeros to a group. */
  function Filled(rest: seq<bool>, w: nat): (r: nat)
    requires |rest| <= w
    ensures r < Shl(1, w)
  {
    ToFromBits(rest + Falses(w - |rest|));
    FromBits(rest + Falses(w - |rest|))
  }

  /**
   * Regrouping: with padding the last bits are filled up with zeros; without, they have to be zeros and fewer
   * than an input number has.
   */
  function Convert(input: seq<nat>, inBits: nat, outBits: nat, pad: bool): (r: Option<seq<nat>>)
    requires outBits > 0
    ensures (r.Some? ==> Below(r.value, outBits)) && (pad ==> r.Some?)
  {
    var b := AllBits(input, inBits);
    AllBitsSplit(b, outBits);
    var out, rest := Split(b, outBits), Rest(b, outBits);
    if pad then Some(if rest == [] then out else out + [Filled(rest, outBits)])
    else if |rest| >= inBits || true in rest then None
    else Some(out)
  }

  /** Regrouping to the smaller width and back: each direction undoes the other, on exactly what the other accepts. */
  lemma ConvertIff(x: seq<nat>, y: seq<nat>, a: nat, b: nat)
    requires 0 < a <= b && Below(x, a) && Below(y, b)
    ensures Convert(y, b, a, true) == Some(x) <==> Convert(x, a, b, false) == Some(y)
  {
    if Convert(y, b, a, true) == Some(x) { ConvertBack(x, y, a, b); }
    if Convert(x, a, b, false) == Some(y) { ConvertForth(x, y, a, b); }
  }

  lemma ConvertBack(x: seq<nat>, y: seq<nat>, a: nat, b: nat)
    requires 0 < a <= b && Below(y, b) && Convert(y, b, a, true) == Some(x)
    ensures Convert(x, a, b, false) == Some(y)
  {
    hide AllBits, ToBits, FromBits, Split, Rest, Shl, Low, Below;
    var c := AllBits(y, b);
    var out, rest := Split(c, a), Rest(c, a);
    AllBitsSplit(c, a);
    var zeros := if rest == [] then [] else Falses(a - |rest|);
    if rest == [] {
      assert c == AllBits(out, a);
    } else {
      var last := FromBits(rest + zeros);
      ToFromBits(rest + zeros);
      AllBitsConcat(out, [last], a);
      AllBitsOne(last, a);
      assert AllBits(out, a) + (rest + zeros) == AllBits(out, a) + rest + zeros;
    }
    assert AllBits(x, a) == c + zeros;
    SplitAllBits(y, b, zeros);
  }

  lemma ConvertForth(x: seq<nat>, y: seq<nat>, a: nat, b: nat)
    requires 0 < a <= b && Below(x, a) && Convert(x, a, b, false) == Some(y)
    ensures Convert(y, b, a, true) == Some(x)
  {
    hide AllBits, ToBits, FromBits, Split, Rest, Shl, Low, Below;
    var d := AllBits(x, a);
    var c, r := AllBits(y, b), Rest(d, b);
    AllBitsSplit(d, b);
    NoTrue(r);
    NoBits(a);
    if r == [] {
      assert c == c + r == d && d + [] == d;
      SplitAllBits(x, a, []);
    } else {
      CutLast(x, a, c, r);
      assert x == x[..|x| - 1] + [x[|x| - 1]];
    }
  }

  /** Cutting zeros off the last number leaves a rest that padding makes up for. */
  lemma CutLast(x: seq<nat>, a: nat, c: seq<bool>, r: seq<bool>)
    requires x != [] && Below(x, a) && c + r == AllBits(x, a) && 0 < |r| < a && r == Falses(|r|)
    ensures Split(c, a) == x[..|x| - 1] && Rest(c, a) != []
    ensures FromBits(Rest(c, a) + Falses(a - |Rest(c, a)|)) == x[|x| - 1]
  {
    hide AllBits, ToBits, FromBits, Split, Rest, Shl, Low, Falses, Below;
    var x', last := x[..|x| - 1], x[|x| - 1];
    var bits := ToBits(last, a);
    var t := bits[..a - |r|];
    AllBitsLast(x, a);
    SameTail(c, r, AllBits(x', a), bits);
    SplitAllBits(x', a, t);
    assert bits == t + r;
    FromToBits(last, a);
    LowBound(last, a);
  }

  lemma AllBitsLast(x: seq<nat>, a: nat)
    requires x != [] && Below(x, a)
    ensures AllBits(x, a) == AllBits(x[..|x| - 1], a) + ToBits(x[|x| - 1], a) && Below(x[..|x| - 1], a)
    ensures x[|x| - 1] < Shl(1, a)
  {
    hide AllBits, ToBits, Shl;
    var x', last := x[..|x| - 1], x[|x| - 1];
    AllBitsConcat(x', [last], a);
    AllBitsOne(last, a);
    assert x' + [last] == x;
  }

  lemma NoBits(w: nat)
    ensures AllBits([], w) == []
  {
  }

  lemma SameTail(c: seq<bool>, r: seq<bool>, e: seq<bool>, bits: seq<bool>)
    requires c + r == e + bits && |r| <= |bits|
    ensures c == e + bits[..|bits| - |r|] && bits[|bits| - |r|..] == r
  {
    assert c == (c + r)[..|c|];
    assert r == (c + r)[|c|..];
  }

  // ---------------------------------------------------------------- the program

  const WORD := 32

  /** What taking in one number does to the pending bits: a shift within a 32-bit word, and an addition below. */
  lemma TakeIn(val: nat, bits: nat, x: nat, inBits: nat)
    requires x < Shl(1, inBits) && bits + inBits <= WORD
    ensures ToBits(Low(Shl(val, inBits) + x, WORD), bits + inBits) == ToBits(val, bits) + ToBits(x, inBits)
  {
    LowBits(Shl(val, inBits) + x, WORD, bits + inBits);
    ShlBits(val, bits, inBits, x);
  }

  /** What giving out one number leaves. */
  lemma GiveOut(val: nat, bits: nat, outBits: nat)
    requires outBits <= bits
    ensures ToBits(val, bits) == ToBits(Low(Shr(val, bits - outBits), outBits), outBits) + ToBits(val, bits - outBits)
  {
    ShrBits(val, outBits, bits - outBits);
    LowBits(Shr(val, bits - outBits), outBits, outBits);
  }

  lemma {:induction false} ShlZero(a: nat)
    ensures Shl(0, a) == 0 && Shl(1, a) > 0
  {
    if a > 0 { ShlZero(a - 1); }
  }

  lemma {:induction false} FalsesBits(k: nat)
    ensures ToBits(0, k) == Falses(k)
  {
    if k > 0 { FalsesBits(k - 1); }
  }

  /** The padded last number: the pending bits, shifted up. */
  lemma PadOut(val: nat, bits: nat, outBits: nat)
    requires bits <= outBits
    ensures ToBits(Low(Shl(val, outBits - bits), outBits), outBits) == ToBits(val, bits) + Falses(outBits - bits)
    ensures Low(Shl(val, outBits - bits), outBits) == FromBits(ToBits(val, bits) + Falses(outBits - bits))
  {
    hide ToBits, FromBits, Shl, Low;
    var k := outBits - bits;
    ShlZero(k);
    ShlBits(val, bits, k, 0);
    FalsesBits(k);
    LowBits(Shl(val, k), outBits, outBits);
    FromToBits(Low(Shl(val, k), outBits), outBits);
    LowBound(Shl(val, k), outBits);
    LowBound(Low(Shl(val, k), outBits), outBits);
  }

  /** The loop over pending bits: gives out numbers while there are enough. */
  method GiveOutAll(val: nat, bits: nat, outBits: nat, out: seq<nat>) returns (b: nat, r: seq<nat>)
    requires outBits > 0 && Below(out, outBits)
    ensures b < outBits && Below(r, outBits)
    ensures AllBits(r, outBits) + ToBits(val, b) == AllBits(out, outBits) + ToBits(val, bits)
  {
    b, r := bits, out;
    while b >= outBits
      invariant Below(r, outBits) && AllBits(r, outBits) + ToBits(val, b) == AllBits(out, outBits) + ToBits(val, bits)
    {
      GiveOut(val, b, outBits);
      b := b - outBits;
      var v := Low(Shr(val, b), outBits);
      LowBound(Shr(val, b), outBits);
      AllBitsConcat(r, [v], outBits);
      AllBitsOne(v, outBits);
      assert AllBits(r, outBits) + (ToBits(v, outBits) + ToBits(val, b)) == AllBits(r + [v], outBits) + ToBits(val, b);
      r := r + [v];
    }
  }

  method ConvertBits(input: seq<nat>, inBits: nat, outBits: nat, pad: bool) returns (r: Option<seq<nat>>)
    requires 0 < inBits && 0 < outBits && outBits + inBits <= WORD && Below(input, inBits)
    ensures r == Convert(input, inBits, outBits, pad)
  {
    hide AllBits, ToBits, FromBits, Split, Rest, Shl, Low;
    var val: nat, bits: nat, out: seq<nat> := 0, 0, [];
    NothingTaken(inBits, outBits);
    assert input[..0] == [];
    for i := 0 to |input|
      invariant bits < outBits && Below(out, outBits)
      invariant AllBits(out, outBits) + ToBits(val, bits) == AllBits(input[..i], inBits)
    {
      var x := input[i];
      TakeIn(val, bits, x, inBits);
      AllBitsConcat(input[..i], [x], inBits);
      AllBitsOne(x, inBits);
      assert input[..i + 1] == input[..i] + [x];
      assert AllBits(out, outBits) + (ToBits(val, bits) + ToBits(x, inBits))
          == AllBits(input[..i], inBits) + ToBits(x, inBits);
      val := Low(Shl(val, inBits) + x, WORD);
      bits, out := GiveOutAll(val, bits + inBits, outBits, out);
    }
    assert input[..|input|] == input;
    SplitAllBits(out, outBits, ToBits(val, bits));
    PadOut(val, bits, outBits);
    if pad {
      if bits != 0 { out := out + [Low(Shl(val, outBits - bits), outBits)]; }
    } else {
      LowIsZeroPadded(val, bits, outBits);
      if Low(Shl(val, outBits - bits), outBits) != 0 || bits >= inBits { return None; }
    }
    return Some(out);
  }

  lemma NothingTaken(inBits: nat, outBits: nat)
    ensures AllBits([], outBits) + ToBits(0, 0) == AllBits([], inBits)
  {
  }

  lemma LowIsZeroPadded(val: nat, bits: nat, outBits: nat)
    requires bits <= outBits
    ensures Low(Shl(val, outBits - bits), outBits) == 0 <==> true !in ToBits(val, bits)
  {
    hide ToBits, FromBits, Shl, Low;
    var k := outBits - bits;
    PadOut(val, bits, outBits);
    LowIsZero(Low(Shl(val, k), outBits), outBits);
    LowBound(Shl(val, k), outBits);
    LowBound(Low(Shl(val, k), outBits), outBits);
    assert true in ToBits(val, bits) + Falses(k) <==> true in ToBits(val, bits);
  }
}
