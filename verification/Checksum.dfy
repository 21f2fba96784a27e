/**
 * The six-symbol checksum over the register: it is the one continuation that ends in a given constant, and
 * two sequences that differ only within six neighbouring symbols never end in the same state.
 */
module Checksum {
  import opened Polymod

  /** A 5-bit value. */
  type Symbol = v: nat | v < 32

  const CHECKSUM_SIZE := 6

  function Wide(v: Symbol): bv32 { v as bv5 as bv32 }

  function Narrow(x: bv32): Symbol
    requires x < 32
  {
    x as int
  }

  lemma WideBound(v: Symbol)
    ensures Wide(v) < 32
  {
  }

  lemma WideInjective(v: Symbol, w: Symbol)
    requires Wide(v) == Wide(w)
    ensures v == w
  {
  }

  lemma WideNarrow(x: bv32)
    requires x < 32
    ensures Wide(Narrow(x)) == x
  {
  }

  /** The register after taking in the symbols from the state on. */
  function Fold(s: bv32, vs: seq<Symbol>): bv32
    decreases |vs|
  {
    if vs == [] then s else Xor(Step(Fold(s, vs[..|vs| - 1])), Wide(vs[|vs| - 1]))
  }

  lemma XorBound(x: bv32, v: bv32)
    requires x < STATE_LIMIT && v < 32
    ensures Xor(x, v) < STATE_LIMIT
  {
  }

  lemma {:induction false} FoldBound(s: bv32, vs: seq<Symbol>)
    requires s < STATE_LIMIT
    ensures Fold(s, vs) < STATE_LIMIT
    decreases |vs|
  {
    if vs != [] {
      StepBound(Fold(s, vs[..|vs| - 1]));
      WideBound(vs[|vs| - 1]);
      XorBound(Step(Fold(s, vs[..|vs| - 1])), Wide(vs[|vs| - 1]));
    }
  }

  lemma {:induction false} FoldConcat(s: bv32, a: seq<Symbol>, b: seq<Symbol>)
    ensures Fold(s, a + b) == Fold(Fold(s, a), b)
    decreases |b|
  {
    if b == [] {
      assert a + b == a;
    } else {
      FoldConcat(s, a, b[..|b| - 1]);
      assert (a + b)[..|a + b| - 1] == a + b[..|b| - 1];
    }
  }

  lemma XorCancel(x: bv32, y: bv32, v: bv32)
    requires Xor(x, v) == Xor(y, v)
    ensures x == y
  {
  }

  /** Different states stay different whatever follows. */
  lemma {:induction false} FoldInjective(s: bv32, t: bv32, vs: seq<Symbol>)
    requires s < STATE_LIMIT && t < STATE_LIMIT && Fold(s, vs) == Fold(t, vs)
    ensures s == t
    decreases |vs|
  {
    if vs != [] {
      var before := vs[..|vs| - 1];
      FoldBound(s, before);
      FoldBound(t, before);
      XorCancel(Step(Fold(s, before)), Step(Fold(t, before)), Wide(vs[|vs| - 1]));
      StepInjective(Fold(s, before), Fold(t, before));
      FoldInjective(s, t, before);
    }
  }

  // ---------------------------------------------------------------- up to six symbols side by side

  /** Five bits for each of `k` symbols. */
  predicate Fits(c: bv32, k: nat) {
    if k == 0 then c < 1 else if k == 1 then c < 0x20 else if k == 2 then c < 0x400 else if k == 3 then c < 0x8000
    else if k == 4 then c < 0x100000 else if k == 5 then c < 0x2000000 else c < STATE_LIMIT
  }

  function Push(c: bv32, v: bv32): bv32 { (c << 5) ^ v }

  /** Up to six symbols side by side in one word. */
  function Word(vs: seq<Symbol>): bv32
    decreases |vs|
  {
    if vs == [] then 0 else Push(Word(vs[..|vs| - 1]), Wide(vs[|vs| - 1]))
  }

  function Zeros(n: nat): (r: seq<Symbol>)
    ensures |r| == n
  {
    seq(n, _ => 0)
  }

  lemma PushFits(c: bv32, v: Symbol, k: nat)
    requires k < CHECKSUM_SIZE && Fits(c, k)
    ensures Fits(Push(c, Wide(v)), k + 1)
  {
    WideBound(v);
  }

  lemma PushInjective(c: bv32, v: Symbol, d: bv32, w: Symbol, k: nat)
    requires k < CHECKSUM_SIZE && Fits(c, k) && Fits(d, k) && Push(c, Wide(v)) == Push(d, Wide(w))
    ensures c == d && v == w
  {
    WideBound(v);
    WideBound(w);
    PushParts(c, Wide(v), d, Wide(w));
    WideInjective(v, w);
  }

  lemma PushParts(c: bv32, v: bv32, d: bv32, w: bv32)
    requires c < 0x2000000 && d < 0x2000000 && v < 32 && w < 32 && Push(c, v) == Push(d, w)
    ensures c == d && v == w
  {
  }

  lemma {:induction false} WordFits(vs: seq<Symbol>)
    requires |vs| <= CHECKSUM_SIZE
    ensures Fits(Word(vs), |vs|)
    decreases |vs|
  {
    if vs != [] {
      hide Push, Wide, Fits;
      WordFits(vs[..|vs| - 1]);
      PushFits(Word(vs[..|vs| - 1]), vs[|vs| - 1], |vs| - 1);
    }
  }

  lemma {:induction false} WordInjective(a: seq<Symbol>, b: seq<Symbol>)
    requires |a| == |b| <= CHECKSUM_SIZE && Word(a) == Word(b)
    ensures a == b
    decreases |a|
  {
    hide Push, Wide, Fits;
    if a != [] {
      var a', b', n := a[..|a| - 1], b[..|b| - 1], |a| - 1;
      WordFits(a');
      WordFits(b');
      PushInjective(Word(a'), a[n], Word(b'), b[n], n);
      WordInjective(a', b');
      assert a == a' + [a[n]] && b == b' + [b[n]];
    }
  }

  /** The state `f` is the state `z` with the word added. */
  predicate IsSum(f: bv32, z: bv32, c: bv32) { f == z ^ c }

  function Up(c: bv32): bv32 { c << 5 }

  lemma PushStep(c: bv32, sz: bv32, sf: bv32, v: bv32)
    requires IsSum(sf, sz, Up(c))
    ensures IsSum(Xor(sf, v), Xor(sz, 0), Push(c, v))
  {
  }

  lemma StepOf(z: bv32, f: bv32, c: bv32, k: nat)
    requires k < CHECKSUM_SIZE && Fits(c, k) && IsSum(f, z, c)
    ensures IsSum(Step(f), Step(z), Up(c))
  {
    hide Step;
    StepAdd(z, f, c, Up(c));
  }

  lemma WideZero()
    ensures Wide(0) == 0
  {
  }

  lemma FoldStep(z: bv32, f: bv32, c: bv32, v: Symbol, k: nat)
    requires k < CHECKSUM_SIZE && Fits(c, k) && IsSum(f, z, c)
    ensures IsSum(Xor(Step(f), Wide(v)), Xor(Step(z), Wide(0)), Push(c, Wide(v)))
  {
    hide Step, Xor, Push, Wide, IsSum, Fits, Up;
    StepOf(z, f, c, k);
    WideZero();
    PushStep(c, Step(z), Step(f), Wide(v));
  }

  /** Up to six symbols come out of the register as they are, over what zeros would have given. */
  lemma {:induction false} FoldIsWord(s: bv32, vs: seq<Symbol>)
    requires |vs| <= CHECKSUM_SIZE
    ensures IsSum(Fold(s, vs), Fold(s, Zeros(|vs|)), Word(vs))
    decreases |vs|
  {
    if vs != [] {
      hide Step, Xor, Push, Wide, Fits, IsSum;
      var before, v, zeros := vs[..|vs| - 1], vs[|vs| - 1], Zeros(|vs|);
      FoldIsWord(s, before);
      WordFits(before);
      assert zeros[..|vs| - 1] == Zeros(|before|);
      FoldStep(Fold(s, Zeros(|before|)), Fold(s, before), Word(before), v, |before|);
    }
  }

  // ---------------------------------------------------------------- the checksum

  /** The six symbols of a 30-bit word, the highest first. */
  function SymbolsOf(x: bv32): (r: seq<Symbol>)
    ensures |r| == CHECKSUM_SIZE
  {
    [Narrow((x >> 25) & 31), Narrow((x >> 20) & 31), Narrow((x >> 15) & 31),
     Narrow((x >> 10) & 31), Narrow((x >> 5) & 31), Narrow(x & 31)]
  }

  lemma WordOfSix(vs: seq<Symbol>, c1: bv32, c2: bv32, c3: bv32, c4: bv32, c5: bv32, c6: bv32)
    requires |vs| == CHECKSUM_SIZE
    requires Wide(vs[0]) == c1 && Wide(vs[1]) == c2 && Wide(vs[2]) == c3 && Wide(vs[3]) == c4 && Wide(vs[4]) == c5
      && Wide(vs[5]) == c6
    ensures Word(vs) == Push(Push(Push(Push(Push(Push(0, c1), c2), c3), c4), c5), c6)
  {
    hide Push, Wide;
    assert vs[..5][..4] == vs[..4] && vs[..4][..3] == vs[..3] && vs[..3][..2] == vs[..2] && vs[..2][..1] == vs[..1];
    assert Word(vs[..1]) == Push(Word([]), Wide(vs[0]));
    assert Word(vs[..2]) == Push(Word(vs[..1]), Wide(vs[1]));
    assert Word(vs[..3]) == Push(Word(vs[..2]), Wide(vs[2]));
    assert Word(vs[..4]) == Push(Word(vs[..3]), Wide(vs[3]));
  }

  lemma SixPushes(x: bv32)
    requires x < STATE_LIMIT
    ensures Push(Push(Push(Push(Push(Push(0, (x >> 25) & 31), (x >> 20) & 31), (x >> 15) & 31), (x >> 10) & 31),
                      (x >> 5) & 31), x & 31) == x
  {
  }

  lemma NarrowPart(x: bv32)
    ensures Wide(Narrow(x & 31)) == x & 31
  {
    WideNarrow(x & 31);
  }

  lemma WordOfSymbols(x: bv32)
    requires x < STATE_LIMIT
    ensures Word(SymbolsOf(x)) == x
  {
    hide Push, Wide, Narrow;
    NarrowPart(x >> 25);
    NarrowPart(x >> 20);
    NarrowPart(x >> 15);
    NarrowPart(x >> 10);
    NarrowPart(x >> 5);
    NarrowPart(x);
    WordOfSix(SymbolsOf(x), (x >> 25) & 31, (x >> 20) & 31, (x >> 15) & 31, (x >> 10) & 31, (x >> 5) & 31, x & 31);
    SixPushes(x);
  }

  /** The checksum that ends in the constant: what the zeros would leave, corrected by it. */
  function ChecksumOf(s: bv32, constant: bv32): (r: seq<Symbol>)
    ensures |r| == CHECKSUM_SIZE
  {
    SymbolsOf(Xor(Fold(s, Zeros(CHECKSUM_SIZE)), constant))
  }

  lemma XorLimit(x: bv32, y: bv32)
    requires x < STATE_LIMIT && y < STATE_LIMIT
    ensures Xor(x, y) < STATE_LIMIT
  {
  }

  lemma SumTo(f: bv32, z: bv32, w: bv32)
    requires IsSum(f, z, w)
    ensures w == Xor(z, f)
  {
  }

  lemma SumFrom(f: bv32, z: bv32, w: bv32, constant: bv32)
    requires IsSum(f, z, w) && w == Xor(z, constant)
    ensures f == constant
  {
  }

  /** Six symbols end in the constant if and only if they are the checksum. */
  lemma ChecksumIff(s: bv32, constant: bv32, vs: seq<Symbol>)
    requires s < STATE_LIMIT && constant < STATE_LIMIT && |vs| == CHECKSUM_SIZE
    ensures Fold(s, vs) == constant <==> vs == ChecksumOf(s, constant)
  {
    hide Xor, IsSum, Fold, Word, SymbolsOf;
    var z := Fold(s, Zeros(CHECKSUM_SIZE));
    FoldIsWord(s, vs);
    SumTo(Fold(s, vs), z, Word(vs));
    FoldBound(s, Zeros(CHECKSUM_SIZE));
    XorLimit(z, constant);
    WordOfSymbols(Xor(z, constant));
    if Fold(s, vs) == constant {
      WordInjective(vs, SymbolsOf(Xor(z, constant)));
    } else if vs == ChecksumOf(s, constant) {
      SumFrom(Fold(s, vs), z, Word(vs), constant);
    }
  }

  lemma SameSums(f: bv32, g: bv32, z: bv32, c: bv32, d: bv32)
    requires IsSum(f, z, c) && IsSum(g, z, d) && f == g
    ensures c == d
  {
  }

  /** Changes within six neighbouring symbols never go unnoticed. */
  lemma BurstDetected(s: bv32, before: seq<Symbol>, a: seq<Symbol>, b: seq<Symbol>, after: seq<Symbol>)
    requires s < STATE_LIMIT && |a| == |b| <= CHECKSUM_SIZE && a != b
    ensures Fold(s, before + a + after) != Fold(s, before + b + after)
  {
    hide Xor, IsSum, Fold, Word;
    var t := Fold(s, before);
    FoldBound(s, before);
    FoldConcat(s, before, a);
    FoldConcat(s, before, b);
    FoldConcat(s, before + a, after);
    FoldConcat(s, before + b, after);
    FoldBound(t, a);
    FoldBound(t, b);
    if Fold(s, before + a + after) == Fold(s, before + b + after) {
      FoldInjective(Fold(t, a), Fold(t, b), after);
      FoldIsWord(t, a);
      FoldIsWord(t, b);
      SameSums(Fold(t, a), Fold(t, b), Fold(t, Zeros(|a|)), Word(a), Word(b));
      WordInjective(a, b);
    }
  }
}
