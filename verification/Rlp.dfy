/**
 * RLP decoding in place (src/rlp.c) against the encoding of Appendix B of the Ethereum Yellow Paper. The
 * decoder also takes encodings that are not the shortest; `Wire` says which, and decoding is proved to
 * succeed exactly on those.
 */
module Rlp {
  import opened Bytes
  import opened Errors

  /** A cursor into the buffer: the `len` bytes from `base` on, of which `off` have been read. */
  datatype Ctx = Ctx(base: nat, len: nat, off: nat)

  datatype Kind = String | List

  datatype Res<+T> = Yes(value: T) | No(err: ParserError) {
    predicate IsFailure() { No? }
    function PropagateFailure<U>(): Res<U> requires IsFailure() { No(err) }
    function Extract(): T requires Yes? { value }
  }

  datatype Item = Item(kind: Kind, payload: Ctx, consumed: nat)

  predicate Inside(b: bytes, c: Ctx) { c.base + c.len <= |b| && c.len < 0x10000 }

  function TextOf(b: bytes, c: Ctx): bytes
    requires Inside(b, c)
  {
    b[c.base..c.base + c.len]
  }

  function Available(c: Ctx, size: nat): bool { c.off <= c.len && size <= c.len - c.off }

  /** The payload of `len` bytes behind a header of `head` bytes. */
  function Payload(c: Ctx, kind: Kind, head: nat, len: nat): Res<Item> {
    if Available(c, head + len) then Yes(Item(kind, Ctx(c.base + c.off + head, len, 0), head + len))
    else No(UnexpectedBufferEnd)
  }

  /** A length of its own in `n` bytes. */
  function Long(b: bytes, c: Ctx, kind: Kind, n: nat): Res<Item>
    requires Inside(b, c) && n > 0
  {
    if !Available(c, 1 + n) then No(UnexpectedBufferEnd)
    else if n > 2 then No(RlpInvalidValueLen)
    else
      var at := c.base + c.off + 1;
      Payload(c, kind, 1 + n, if n == 1 then b[at] else b[at] as nat * 256 + b[at + 1])
  }

  function Decode(b: bytes, c: Ctx): (r: Res<Item>)
    requires Inside(b, c)
  {
    if !Available(c, 1) then No(UnexpectedBufferEnd)
    else
      var p := b[c.base + c.off];
      if p <= 0x7f then Payload(c, String, 0, 1)
      else if p <= 0xb7 then Payload(c, String, 1, p - 0x80)
      else if p <= 0xbf then Long(b, c, String, p - 0xb7)
      else if p <= 0xf7 then Payload(c, List, 1, p - 0xc0)
      else Long(b, c, List, p - 0xf7)
  }

  // ---------------------------------------------------------------- the encoding

  /** How an item is written: as itself, with a short length, or with a length of one or two bytes. */
  datatype Form = Single | Short | Long1 | Long2

  datatype Wire = Wire(kind: Kind, form: Form, payload: bytes)

  predicate IsWire(w: Wire) {
    match w.form
    case Single => w.kind == String && |w.payload| == 1 && w.payload[0] <= 0x7f
    case Short => |w.payload| <= 55
    case Long1 => |w.payload| < 0x100
    case Long2 => |w.payload| < 0x10000
  }

  function Head(w: Wire): bytes
    requires IsWire(w)
  {
    var base := if w.kind == String then 0x80 else 0xc0;
    match w.form
    case Single => []
    case Short => [base + |w.payload|]
    case Long1 => [base + 0x38, |w.payload|]
    case Long2 => [base + 0x39, |w.payload| / 256, |w.payload| % 256]
  }

  function Encode(w: Wire): bytes
    requires IsWire(w)
  {
    Head(w) + w.payload
  }

  predicate AreWires(ws: seq<Wire>) { forall i :: 0 <= i < |ws| ==> IsWire(ws[i]) }

  function EncodeAll(ws: seq<Wire>): bytes
    requires AreWires(ws)
  {
    if ws == [] then [] else Encode(ws[0]) + EncodeAll(ws[1..])
  }

  /** What decoding the item written at the cursor gives. */
  function Written(c: Ctx, w: Wire): Item
    requires IsWire(w)
  {
    Item(w.kind, Ctx(c.base + c.off + |Head(w)|, |w.payload|, 0), |Encode(w)|)
  }

  /** The item is written at the cursor and ends within its bounds. */
  predicate Starts(b: bytes, c: Ctx, w: Wire) {
    IsWire(w) && At(b, c.base + c.off, Encode(w)) && c.off + |Encode(w)| <= c.len
  }

  function FormOf(p: byte): Form {
    if p <= 0x7f then Single
    else if p == 0xb8 || p == 0xf8 then Long1
    else if p == 0xb9 || p == 0xf9 then Long2
    else Short
  }

  lemma DecodeWritten(b: bytes, c: Ctx, w: Wire)
    requires Inside(b, c) && Starts(b, c, w)
    ensures Decode(b, c) == Yes(Written(c, w)) && 0 < |Encode(w)|
  {
    assert b[c.base + c.off] == Encode(w)[0];
    if w.form == Long1 || w.form == Long2 { assert b[c.base + c.off + 1] == Encode(w)[1]; }
    if w.form == Long2 { assert b[c.base + c.off + 2] == Encode(w)[2]; }
  }

  /** The header written in the form lies in front of the decoded item's payload. */
  predicate Headed(b: bytes, c: Ctx, item: Item, form: Form) {
    && Inside(b, c) && Inside(b, item.payload) && item.payload.off == 0
    && var w := Wire(item.kind, form, TextOf(b, item.payload));
    && IsWire(w) && At(b, c.base + c.off, Head(w)) && item.payload.base == c.base + c.off + |Head(w)|
    && item.consumed == |Head(w)| + item.payload.len && c.off + item.consumed <= c.len
  }

  lemma LongHead(b: bytes, c: Ctx, kind: Kind, n: nat)
    requires Inside(b, c) && n > 0 && Long(b, c, kind, n).Yes?
    requires b[c.base + c.off] == n + if kind == String then 0xb7 else 0xf7
    ensures Headed(b, c, Long(b, c, kind, n).value, if n == 1 then Long1 else Long2)
  {
    var at := c.base + c.off + 1;
    if n == 2 { SplitLength(b[at], b[at + 1]); }
  }

  lemma SplitLength(hi: byte, lo: byte)
    ensures var n := hi as nat * 256 + lo; n / 256 == hi && n % 256 == lo
  {
  }

  lemma DecodeHead(b: bytes, c: Ctx)
    requires Inside(b, c) && Decode(b, c).Yes?
    ensures Headed(b, c, Decode(b, c).value, FormOf(b[c.base + c.off]))
  {
    var p := b[c.base + c.off];
    if 0xb8 <= p <= 0xbf {
      hide Headed, Long;
      LongHead(b, c, String, p - 0xb7);
    } else if 0xf8 <= p {
      hide Headed, Long;
      LongHead(b, c, List, p - 0xf7);
    }
  }

  /** Whatever is decoded was written there, in one of the forms. */
  lemma DecodeSound(b: bytes, c: Ctx) returns (w: Wire)
    requires Inside(b, c) && Decode(b, c).Yes?
    ensures Starts(b, c, w) && Decode(b, c) == Yes(Written(c, w))
    ensures Inside(b, Written(c, w).payload) && TextOf(b, Written(c, w).payload) == w.payload
  {
    DecodeHead(b, c);
    var item := Decode(b, c).value;
    w := Wire(item.kind, FormOf(b[c.base + c.off]), TextOf(b, item.payload));
    AtSlice(b, item.payload.base, w.payload);
    AtSplit(b, c.base + c.off, Head(w), w.payload);
  }

  lemma WrittenText(b: bytes, c: Ctx, w: Wire)
    requires Inside(b, c) && Starts(b, c, w)
    ensures Inside(b, Written(c, w).payload) && TextOf(b, Written(c, w).payload) == w.payload
  {
    AtSplit(b, c.base + c.off, Head(w), w.payload);
    AtSlice(b, c.base + c.off + |Head(w)|, w.payload);
  }

  /**
   * Decoding succeeds exactly on the encodings, canonical or not, that end within the bounds; it always goes
   * forward.
   */
  lemma DecodeIff(b: bytes, c: Ctx, item: Item)
    requires Inside(b, c)
    ensures Decode(b, c) == Yes(item) <==> exists w :: Starts(b, c, w) && Written(c, w) == item
    ensures Decode(b, c).Yes? ==> 0 < Decode(b, c).value.consumed <= c.len - c.off
  {
    if Decode(b, c).Yes? {
      var w := DecodeSound(b, c);
      DecodeWritten(b, c, w);
    }
    forall w | Starts(b, c, w) ensures Decode(b, c) == Yes(Written(c, w)) { DecodeWritten(b, c, w); }
  }

  // ---------------------------------------------------------------- numbers

  const MAX_NUMBER := 8

  function ReadNumber(b: bytes, item: Item): Res<nat>
    requires Inside(b, item.payload)
  {
    if item.kind != String then No(RlpInvalidKind)
    else if item.payload.len > MAX_NUMBER then No(RlpInvalidValueLen)
    else Yes(FromBigEndian(TextOf(b, item.payload)))
  }

  lemma {:induction false} FromBigEndianBound(s: bytes)
    requires |s| <= MAX_NUMBER
    ensures FromBigEndian(s) < Power256(|s|) <= 0x1_0000_0000_0000_0000
    decreases |s|
  {
    if s != [] { FromBigEndianBound(s[..|s| - 1]); }
    PowerValues();
  }

  lemma OneByte(text: bytes)
    ensures FromBigEndian(text[..0]) == 0 && (|text| == 1 ==> FromBigEndian(text) == text[0])
  {
    if |text| == 1 { assert FromBigEndian(text[..0]) == 0; }
  }

  /** One byte more keeps the value in 64 bits. */
  lemma FromBigEndianStep(text: bytes, i: nat)
    requires i < |text| <= MAX_NUMBER
    ensures FromBigEndian(text[..i + 1]) == 256 * FromBigEndian(text[..i]) + text[i] < 0x1_0000_0000_0000_0000
  {
    FromBigEndianBound(text[..i + 1]);
    assert text[..i + 1][..i] == text[..i];
  }

  function Power256(n: nat): nat { if n == 0 then 1 else 256 * Power256(n - 1) }

  lemma PowerValues()
    ensures Power256(1) == 0x100 && Power256(2) == 0x10000 && Power256(3) == 0x100_0000 && Power256(4) == 0x1_0000_0000
    ensures Power256(5) == 0x100_0000_0000 && Power256(6) == 0x1_0000_0000_0000 && Power256(7) == 0x100_0000_0000_0000
    ensures Power256(8) == 0x1_0000_0000_0000_0000
  {
    assert Power256(4) == 0x1_0000_0000;
  }

  /** The shortest big-endian form of a number; zero is empty. */
  function BigEndian(n: nat): bytes { if n == 0 then [] else BigEndian(n / 256) + [n % 256] }

  lemma {:induction false} BigEndianRoundTrip(n: nat)
    ensures FromBigEndian(BigEndian(n)) == n
    decreases n
  {
    if n > 0 {
      BigEndianRoundTrip(n / 256);
      assert BigEndian(n)[..|BigEndian(n)| - 1] == BigEndian(n / 256);
    }
  }

  lemma {:induction false} BigEndianLength(n: nat, k: nat)
    requires n < Power256(k)
    ensures |BigEndian(n)| <= k
    decreases k
  {
    if n > 0 && k > 0 { BigEndianLength(n / 256, k - 1); }
  }

  // ---------------------------------------------------------------- the program

  /** A parser context of the program. */
  class Context {
    var base: nat
    var len: nat
    var off: nat

    function Value(): Ctx
      reads this
    {
      Ctx(base, len, off)
    }

    constructor (c: Ctx)
      ensures Value() == c
    {
      base, len, off := c.base, c.len, c.off;
    }

    /** The payload length that is written out, shifted together in 16 bits. */
    method DecodeLong(b: bytes, kind: Kind, lenLen: nat) returns (r: Res<Item>)
      requires Inside(b, Value()) && lenLen > 0
      ensures r == Long(b, Value(), kind, lenLen)
    {
      if off > len || len - off < 1 + lenLen { return No(UnexpectedBufferEnd); }
      if lenLen > 2 { return No(RlpInvalidValueLen); }
      var n: nat := 0;
      for i := 0 to lenLen
        invariant n == if i == 0 then 0 else if i == 1 then b[base + off + 1]
          else b[base + off + 1] as nat * 256 + b[base + off + 2]
      {
        n := n * 256 % 0x10000;
        n := (n + b[base + off + 1 + i]) % 0x10000;
      }
      var consumed := 1 + lenLen + n;
      if off > len || len - off < consumed { return No(UnexpectedBufferEnd); }
      return Yes(Item(kind, Ctx(base + off + 1 + lenLen, n, 0), consumed));
    }

    method RlpDecode(b: bytes) returns (r: Res<Item>)
      requires Inside(b, Value())
      ensures r == Decode(b, Value())
    {
      if off > len || len - off < 1 { return No(UnexpectedBufferEnd); }
      var p := b[base + off];
      if p <= 0x7f { return Yes(Item(String, Ctx(base + off, 1, 0), 1)); }
      if p >= 0x80 && p <= 0xb7 {
        var consumed := 1 + (p - 0x80);
        if off > len || len - off < consumed { return No(UnexpectedBufferEnd); }
        return Yes(Item(String, Ctx(base + off + 1, p - 0x80, 0), consumed));
      }
      if p >= 0xb8 && p <= 0xbf {
        r := DecodeLong(b, String, p - 0xb7);
        return;
      }
      if p >= 0xc0 && p <= 0xf7 {
        var consumed := 1 + (p - 0xc0);
        if off > len || len - off < consumed { return No(UnexpectedBufferEnd); }
        return Yes(Item(List, Ctx(base + off + 1, p - 0xc0, 0), consumed));
      }
      r := DecodeLong(b, List, p - 0xf7);
    }

    /** Moves the cursor on; the sum is taken before it is cut to 16 bits. */
    method CheckAndAdvance(size: nat) returns (ok: bool)
      modifies this
      ensures ok == (old(off) + size <= len) && base == old(base) && len == old(len)
      ensures off == if ok then old(off) + size else old(off)
    {
      if off + size > len { return false; }
      off := off + size;
      return true;
    }
  }

  /** An unsigned number of up to eight bytes, shifted together in 64 bits. */
  method ReadUInt64(b: bytes, item: Item) returns (r: Res<nat>)
    requires Inside(b, item.payload) && item.payload.off == 0
    ensures r == ReadNumber(b, item)
  {
    hide FromBigEndian;
    var c := item.payload;
    if item.kind != String { return No(RlpInvalidKind); }
    ghost var text := TextOf(b, c);
    OneByte(text);
    if c.len == 1 { return Yes(b[c.base]); }
    if c.len > MAX_NUMBER { return No(RlpInvalidValueLen); }
    var v: nat := 0;
    for i := 0 to c.len
      invariant v == FromBigEndian(text[..i])
    {
      FromBigEndianStep(text, i);
      v := v * 256 % 0x1_0000_0000_0000_0000;
      v := (v + b[c.base + c.off + i]) % 0x1_0000_0000_0000_0000;
    }
    assert text[..c.len] == text;
    return Yes(v);
  }
}
