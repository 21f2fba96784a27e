/** Bytes as bounded integers, and the few facts about slices that every other module uses. */
module Bytes {
  type byte = b: int | 0 <= b < 256
  type bytes = seq<byte>

  datatype Option<+T> = None | Some(value: T)

  /** The text stands in `s` at offset `at`. */
  predicate At<T(==)>(s: seq<T>, at: nat, text: seq<T>) {
    at + |text| <= |s| && forall i :: 0 <= i < |text| ==> text[i] == s[at + i]
  }

  lemma AtSplit<T>(s: seq<T>, at: nat, a: seq<T>, b: seq<T>)
    ensures At(s, at, a + b) <==> At(s, at, a) && At(s, at + |a|, b)
  {
    if At(s, at, a + b) {
      forall i | 0 <= i < |a| ensures a[i] == s[at + i] { assert (a + b)[i] == a[i]; }
      forall i | 0 <= i < |b| ensures b[i] == s[at + |a| + i] { assert (a + b)[|a| + i] == b[i]; }
    }
  }

  lemma AtSlice<T>(s: seq<T>, at: nat, text: seq<T>)
    ensures At(s, at, text) <==> at + |text| <= |s| && s[at..at + |text|] == text
  {
    if at + |text| <= |s| && s[at..at + |text|] == text {
      forall i | 0 <= i < |text| ensures text[i] == s[at + i] { assert s[at..at + |text|][i] == s[at + i]; }
    }
  }

  lemma AtIndex<T>(s: seq<T>, at: nat, text: seq<T>, i: nat)
    requires At(s, at, text) && i < |text|
    ensures s[at + i] == text[i]
  {
  }

  /** The value of bytes, the highest first. */
  function FromBigEndian(s: bytes): nat
    decreases |s|
  {
    if s == [] then 0 else 256 * FromBigEndian(s[..|s| - 1]) + s[|s| - 1]
  }

  predicate AreAscii(s: string) { forall i :: 0 <= i < |s| ==> s[i] as int < 128 }

  /** The bytes of a text in ASCII. */
  function Ascii(s: string): (r: bytes)
    requires AreAscii(s)
    ensures |r| == |s| && forall i :: 0 <= i < |s| ==> r[i] == s[i] as int
  {
    seq(|s|, i requires 0 <= i < |s| => s[i] as int)
  }
}
