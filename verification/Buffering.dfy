/** The transaction buffer: RAM first, spilled to flash when it no longer fits. */
module Buffering {
  import opened Bytes

  /** The bytes held and where; `inRam` once false stays false until the next reset. */
  datatype Buf = Buf(inRam: bool, contents: bytes)

  const EMPTY := Buf(true, [])

  /** The buffer after an append, and the number of bytes the call reports. */
  function Appended(b: Buf, data: bytes, ramSize: nat, flashSize: nat): (Buf, nat) {
    if b.inRam && |b.contents| + |data| <= ramSize then (Buf(true, b.contents + data), |data|)
    else if |b.contents| + |data| <= flashSize then (Buf(false, b.contents + data), |data|)
    else (Buf(false, b.contents), 0)
  }

  datatype Op = Reset | Add(data: bytes)

  /** The data of the appends since the last reset that reported their full length. */
  function Accepted(ops: seq<Op>, ramSize: nat, flashSize: nat): bytes {
    if ops == [] then []
    else
      var before, op := ops[..|ops| - 1], ops[|ops| - 1];
      match op
      case Reset => []
      case Add(d) =>
        if Appended(Run(before, ramSize, flashSize), d, ramSize, flashSize).1 == |d|
        then Accepted(before, ramSize, flashSize) + d
        else Accepted(before, ramSize, flashSize)
  }

  function Run(ops: seq<Op>, ramSize: nat, flashSize: nat): Buf {
    if ops == [] then EMPTY
    else
      match ops[|ops| - 1]
      case Reset => EMPTY
      case Add(d) => Appended(Run(ops[..|ops| - 1], ramSize, flashSize), d, ramSize, flashSize).0
  }

  /** What was reported as stored is what is there, over any run. */
  lemma {:induction false} RunHoldsAccepted(ops: seq<Op>, ramSize: nat, flashSize: nat)
    ensures Run(ops, ramSize, flashSize).contents == Accepted(ops, ramSize, flashSize)
  {
    if ops != [] {
      var before := ops[..|ops| - 1];
      RunHoldsAccepted(before, ramSize, flashSize);
      match ops[|ops| - 1]
      case Reset =>
      case Add(d) =>
        if d == [] { assert Accepted(before, ramSize, flashSize) + d == Accepted(before, ramSize, flashSize); }
    }
  }

  /** After any run, an append reports less than its length exactly when the flash has no room for it all. */
  lemma RefusedIff(ops: seq<Op>, data: bytes, ramSize: nat, flashSize: nat)
    requires ramSize <= flashSize
    ensures var b := Run(ops, ramSize, flashSize);
      Appended(b, data, ramSize, flashSize).1 != |data| <==> |Accepted(ops, ramSize, flashSize)| + |data| > flashSize
  {
    RunHoldsAccepted(ops, ramSize, flashSize);
    RunFits(ops, ramSize, flashSize);
  }

  /** The data still fits the place it is in, so no append ever writes outside its memory. */
  lemma {:induction false} RunFits(ops: seq<Op>, ramSize: nat, flashSize: nat)
    requires ramSize <= flashSize
    ensures var b := Run(ops, ramSize, flashSize); |b.contents| <= if b.inRam then ramSize else flashSize
  {
    if ops != [] { RunFits(ops[..|ops| - 1], ramSize, flashSize); }
  }

  /** How many bytes were appended since the last reset, whether they were stored or not. */
  function Offered(ops: seq<Op>): nat {
    if ops == [] then 0
    else
      match ops[|ops| - 1]
      case Reset => 0
      case Add(d) => Offered(ops[..|ops| - 1]) + |d|
  }

  /** The data is in RAM exactly while everything appended would have fit there. */
  lemma {:induction false} InRamIff(ops: seq<Op>, ramSize: nat, flashSize: nat)
    requires ramSize <= flashSize
    ensures var b := Run(ops, ramSize, flashSize);
      && (b.inRam <==> Offered(ops) <= ramSize)
      && (b.inRam ==> |b.contents| == Offered(ops))
  {
    if ops != [] { InRamIff(ops[..|ops| - 1], ramSize, flashSize); }
  }

  class Buffer {
    var ram: array<byte>
    var ramPos: nat
    var ramInUse: bool
    var flash: array<byte>
    var flashPos: nat
    var flashInUse: bool

    predicate Valid()
      reads this
    {
      && ram != flash && ram.Length <= flash.Length
      && ramPos <= ram.Length && flashPos <= flash.Length
      && ramInUse != flashInUse && (ramInUse ==> flashPos == 0)
    }

    function Value(): Buf
      requires Valid()
      reads this, ram, flash
    {
      if ramInUse then Buf(true, ram[..ramPos]) else Buf(false, flash[..flashPos])
    }

    constructor (ram: array<byte>, flash: array<byte>)
      requires ram != flash && ram.Length <= flash.Length
      ensures Valid() && Value() == EMPTY && this.ram == ram && this.flash == flash
    {
      this.ram, ramPos, ramInUse := ram, 0, true;
      this.flash, flashPos, flashInUse := flash, 0, false;
    }

    method Reset()
      requires Valid()
      modifies this
      ensures Valid() && Value() == EMPTY && ram == old(ram) && flash == old(flash)
    {
      ramPos, ramInUse := 0, true;
      flashPos, flashInUse := 0, false;
    }

    /** Copies a sequence into an array from `pos` on. */
    static method Copy(dst: array<byte>, pos: nat, data: bytes)
      requires pos + |data| <= dst.Length
      modifies dst
      ensures dst[..pos + |data|] == old(dst[..pos]) + data
    {
      var i := 0;
      while i < |data|
        invariant 0 <= i <= |data|
        invariant dst[..pos] == old(dst[..pos]) && dst[pos..pos + i] == data[..i]
      {
        dst[pos + i] := data[i];
        i := i + 1;
      }
      assert dst[..pos + |data|] == dst[..pos] + dst[pos..pos + |data|];
    }

    /** The flash half of an append. */
    method AppendToFlash(data: bytes) returns (n: nat)
      requires flashPos <= flash.Length
      modifies this`flashPos, flash
      ensures flashPos <= flash.Length && flash == old(flash)
      ensures if old(flashPos) + |data| <= flash.Length
              then n == |data| && flash[..flashPos] == old(flash[..flashPos]) + data
              else n == 0 && flash[..flashPos] == old(flash[..flashPos])
    {
      if flash.Length - flashPos >= |data| {
        Copy(flash, flashPos, data);
        flashPos := flashPos + |data|;
        return |data|;
      }
      return 0;
    }

    /** Appends, moving to flash when RAM is too small; nothing is stored unless everything fits. */
    method Append(data: bytes) returns (n: nat)
      requires Valid()
      modifies this, ram, flash
      ensures Valid() && ram == old(ram) && flash == old(flash)
      ensures (Value(), n) == Appended(old(Value()), data, ram.Length, flash.Length)
      decreases ramInUse
    {
      if ramInUse {
        if ram.Length - ramPos >= |data| {
          Copy(ram, ramPos, data);
          ramPos := ramPos + |data|;
          return |data|;
        }
        var spilled := ram[..ramPos];
        ramInUse, flashInUse := false, true;
        if ramPos > 0 {
          var moved := Append(spilled);
        }
        assert flash[..flashPos] == spilled;
        n := Append(data);
        ramPos := 0;
        return n;
      }
      n := AppendToFlash(data);
    }
  }
}
