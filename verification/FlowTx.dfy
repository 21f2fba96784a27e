/**
 * The transaction parser over RLP (src/parser_impl.c). A `Layout` says how the nine fields of a transaction
 * are written; the parser accepts a buffer exactly when it holds a layout within the limits.
 */
module FlowTx {
  import opened Bytes
  import opened Errors
  import opened Metadata
  import opened MerkleTree
  import opened Rlp

  const MAX_ARGUMENTS := 10
  const MAX_AUTHORIZERS := 16

  /** What the parser records; fields that stay in the buffer are recorded as spans. */
  datatype Tx = Tx(hash: Digest, args: seq<Ctx>, refBlock: Ctx, gas: nat, proposer: Ctx, keyId: nat, seqNum: nat,
                   payer: Ctx, authorizers: seq<Ctx>)

  function Past(c: Ctx, size: nat): Ctx { c.(off := c.off + size) }

  /** The next item, which has to be of the kind, and the cursor behind it. */
  function Next(b: bytes, c: Ctx, kind: Kind): (r: Res<(Item, Ctx)>)
    requires Inside(b, c)
    ensures r.Yes? ==> Inside(b, r.value.0.payload) && Inside(b, r.value.1)
    ensures r.Yes? ==> c.off < r.value.1.off <= c.len == r.value.1.len
  {
    DecodeFits(b, c);
    var item :- Decode(b, c);
    if item.kind != kind then No(RlpInvalidKind) else Yes((item, Past(c, item.consumed)))
  }

  lemma DecodeFits(b: bytes, c: Ctx)
    requires Inside(b, c)
    ensures Decode(b, c).Yes? ==> Inside(b, Decode(b, c).value.payload) && Decode(b, c).value.payload.off == 0
    ensures Decode(b, c).Yes? ==> 0 < Decode(b, c).value.consumed <= c.len - c.off
  {
    if Decode(b, c).Yes? {
      DecodeHead(b, c);
      var w := DecodeSound(b, c);
      DecodeWritten(b, c, w);
    }
  }

  /** All items up to the end, which have to be strings and no more than there is room for. */
  function ReadItems(b: bytes, c: Ctx, room: nat): (r: Res<seq<Ctx>>)
    requires Inside(b, c)
    ensures r.Yes? ==> forall i :: 0 <= i < |r.value| ==> Inside(b, r.value[i])
    decreases c.len - c.off
  {
    if c.off >= c.len then Yes([])
    else if room == 0 then No(UnexpectedNumberItems)
    else
      var next :- Next(b, c, String);
      var rest :- ReadItems(b, next.1, room - 1);
      Yes([next.0.payload] + rest)
  }

  function ReadList(b: bytes, c: Ctx, room: nat): (r: Res<(seq<Ctx>, Ctx)>)
    requires Inside(b, c)
    ensures r.Yes? ==> Inside(b, r.value.1) && forall i :: 0 <= i < |r.value.0| ==> Inside(b, r.value.0[i])
  {
    var next :- Next(b, c, List);
    var items :- ReadItems(b, next.0.payload, room);
    Yes((items, next.1))
  }

  function ReadBytes(b: bytes, c: Ctx): (r: Res<(Ctx, Ctx)>)
    requires Inside(b, c)
    ensures r.Yes? ==> Inside(b, r.value.0) && Inside(b, r.value.1)
  {
    var next :- Next(b, c, String);
    Yes((next.0.payload, next.1))
  }

  function ReadInt(b: bytes, c: Ctx): (r: Res<(nat, Ctx)>)
    requires Inside(b, c)
    ensures r.Yes? ==> Inside(b, r.value.1)
  {
    var next :- Next(b, c, String);
    var n :- ReadNumber(b, next.0);
    Yes((n, next.1))
  }

  function ReadScript(h: Hash, b: bytes, c: Ctx, shaOk: bool): (r: Res<(Digest, Ctx)>)
    requires Inside(b, c)
    ensures r.Yes? ==> Inside(b, r.value.1)
  {
    var next :- ReadBytes(b, c);
    if shaOk then Yes((h(TextOf(b, next.0)), next.1)) else No(UnexpectedError)
  }

  function ReadFields(h: Hash, b: bytes, c: Ctx, shaOk: bool): Res<(Tx, Ctx)>
    requires Inside(b, c)
  {
    var hash :- ReadScript(h, b, c, shaOk);
    var args :- ReadList(b, hash.1, MAX_ARGUMENTS);
    var refBlock :- ReadBytes(b, args.1);
    var gas :- ReadInt(b, refBlock.1);
    var proposer :- ReadBytes(b, gas.1);
    var keyId :- ReadInt(b, proposer.1);
    var seqNum :- ReadInt(b, keyId.1);
    var payer :- ReadBytes(b, seqNum.1);
    var authorizers :- ReadList(b, payer.1, MAX_AUTHORIZERS);
    Yes((Tx(hash.0, args.0, refBlock.0, gas.0, proposer.0, keyId.0, seqNum.0, payer.0, authorizers.0), authorizers.1))
  }

  /** The root list fills the buffer; its first item is the list of fields, which are all of it. */
  function ReadTx(h: Hash, b: bytes, c: Ctx, shaOk: bool): Res<Tx>
    requires Inside(b, c)
  {
    var root :- Next(b, c, List);
    if root.0.consumed != c.len then No(UnexpectedBufferEnd)
    else
      var inner :- Next(b, root.0.payload, List);
      var fields :- ReadFields(h, b, inner.0.payload, shaOk);
      if fields.1.off != fields.1.len then No(UnexpectedBufferEnd) else Yes(fields.0)
  }

  /** The buffer length is cut to 16 bits on the way in. */
  function Parse(h: Hash, b: bytes, shaOk: bool): Res<Tx> {
    if |b| % 0x10000 == 0 then No(InitContextEmpty) else ReadTx(h, b, Ctx(0, |b| % 0x10000, 0), shaOk)
  }

  // ---------------------------------------------------------------- layouts

  /** How the fields are written. */
  datatype Layout = Layout(script: Wire, argList: Wire, args: seq<Wire>, refBlock: Wire, gas: Wire, proposer: Wire,
                           keyId: Wire, seqNum: Wire, payer: Wire, authorizerList: Wire, authorizers: seq<Wire>)

  function Fields(l: Layout): seq<Wire> {
    [l.script, l.argList, l.refBlock, l.gas, l.proposer, l.keyId, l.seqNum, l.payer, l.authorizerList]
  }

  predicate IsString(w: Wire) { IsWire(w) && w.kind == String }

  predicate IsNumber(w: Wire) { IsString(w) && |w.payload| <= 8 }

  predicate AreStrings(ws: seq<Wire>) { forall i :: 0 <= i < |ws| ==> IsString(ws[i]) }

  predicate IsList(w: Wire, items: seq<Wire>, max: nat) {
    IsWire(w) && w.kind == List && |items| <= max && AreStrings(items) && w.payload == EncodeAll(items)
  }

  predicate IsLayout(l: Layout) {
    && IsString(l.script) && IsList(l.argList, l.args, 10) && IsString(l.refBlock) && IsNumber(l.gas)
    && IsString(l.proposer) && IsNumber(l.keyId) && IsNumber(l.seqNum) && IsString(l.payer)
    && IsList(l.authorizerList, l.authorizers, 16)
  }

  predicate Holds(b: bytes, spans: seq<Ctx>, ws: seq<Wire>) {
    |spans| == |ws| && forall i :: 0 <= i < |ws| ==> Inside(b, spans[i]) && TextOf(b, spans[i]) == ws[i].payload
  }

  predicate HoldsOne(b: bytes, span: Ctx, w: Wire) { Inside(b, span) && TextOf(b, span) == w.payload }

  /** The record gives back what is written: texts as spans, numbers as values, the script as its hash. */
  predicate Reads(h: Hash, b: bytes, tx: Tx, l: Layout) {
    && tx.hash == h(l.script.payload) && Holds(b, tx.args, l.args) && HoldsOne(b, tx.refBlock, l.refBlock)
    && tx.gas == FromBigEndian(l.gas.payload) && HoldsOne(b, tx.proposer, l.proposer)
    && tx.keyId == FromBigEndian(l.keyId.payload) && tx.seqNum == FromBigEndian(l.seqNum.payload)
    && HoldsOne(b, tx.payer, l.payer) && Holds(b, tx.authorizers, l.authorizers)
  }

  function After(c: Ctx, w: Wire): Ctx
    requires IsWire(w)
  {
    Past(c, |Encode(w)|)
  }

  /** Where the payloads are of items written from the cursor on, one behind the other. */
  function PayloadsAt(c: Ctx, ws: seq<Wire>): seq<Ctx>
    requires AreWires(ws)
    decreases |ws|
  {
    if ws == [] then [] else [Written(c, ws[0]).payload] + PayloadsAt(After(c, ws[0]), ws[1..])
  }

  /** The items are written from the cursor on, one behind the other. */
  predicate Lined(b: bytes, c: Ctx, ws: seq<Wire>)
    requires AreWires(ws)
    decreases |ws|
  {
    ws == [] || (Starts(b, c, ws[0]) && Lined(b, After(c, ws[0]), ws[1..]))
  }

  lemma {:induction false} LinedIff(b: bytes, c: Ctx, ws: seq<Wire>)
    requires c.off <= c.len && c.base + c.len <= |b| && AreWires(ws)
    ensures Lined(b, c, ws) <==> At(b, c.base + c.off, EncodeAll(ws)) && c.off + |EncodeAll(ws)| <= c.len
    decreases |ws|
  {
    hide Encode, IsWire;
    if ws != [] {
      var first, rest := Encode(ws[0]), EncodeAll(ws[1..]);
      if c.off + |first| <= c.len { LinedIff(b, After(c, ws[0]), ws[1..]); }
      LinedCons(b, c, first, rest);
      assert EncodeAll(ws) == first + rest;
    }
  }

  lemma LinedCons(b: bytes, c: Ctx, first: bytes, rest: bytes)
    ensures (At(b, c.base + c.off, first + rest) && c.off + |first + rest| <= c.len)
       <==> (At(b, c.base + c.off, first) && c.off + |first| <= c.len
             && At(b, c.base + (c.off + |first|), rest) && c.off + |first| + |rest| <= c.len)
  {
    AtSplit(b, c.base + c.off, first, rest);
  }

  // ---------------------------------------------------------------- single fields

  lemma NextSound(b: bytes, c: Ctx, kind: Kind) returns (w: Wire)
    requires Inside(b, c) && Next(b, c, kind).Yes?
    ensures Starts(b, c, w) && w.kind == kind && Next(b, c, kind).value.1 == After(c, w)
    ensures HoldsOne(b, Next(b, c, kind).value.0.payload, w) && Next(b, c, kind).value.0 == Written(c, w)
  {
    w := DecodeSound(b, c);
  }

  lemma NextWritten(b: bytes, c: Ctx, w: Wire)
    requires Inside(b, c) && Starts(b, c, w)
    ensures Next(b, c, w.kind) == Yes((Written(c, w), After(c, w))) && HoldsOne(b, Written(c, w).payload, w)
  {
    DecodeWritten(b, c, w);
    WrittenText(b, c, w);
  }

  lemma {:induction false} ReadItemsSound(b: bytes, c: Ctx, room: nat) returns (ws: seq<Wire>)
    requires Inside(b, c) && c.off <= c.len && ReadItems(b, c, room).Yes?
    ensures |ws| <= room && AreStrings(ws) && Lined(b, c, ws) && c.off + |EncodeAll(ws)| == c.len
    ensures ReadItems(b, c, room).value == PayloadsAt(c, ws) && Holds(b, PayloadsAt(c, ws), ws)
    decreases c.len - c.off
  {
    hide Next, Encode, HoldsOne;
    if c.off >= c.len {
      ws := [];
    } else {
      var w := NextSound(b, c, String);
      var rest := ReadItemsSound(b, After(c, w), room - 1);
      ws := [w] + rest;
      assert ws[1..] == rest;
    }
  }

  lemma {:induction false} ReadItemsWritten(b: bytes, c: Ctx, room: nat, ws: seq<Wire>)
    requires Inside(b, c) && |ws| <= room && AreStrings(ws) && Lined(b, c, ws) && c.off + |EncodeAll(ws)| == c.len
    ensures ReadItems(b, c, room) == Yes(PayloadsAt(c, ws)) && Holds(b, PayloadsAt(c, ws), ws)
    decreases |ws|
  {
    hide Next, HoldsOne, Encode;
    if ws != [] {
      NextWritten(b, c, ws[0]);
      ReadItemsWritten(b, After(c, ws[0]), room - 1, ws[1..]);
    }
  }

  /** The items of a list fill its payload. */
  lemma ReadListSound(b: bytes, c: Ctx, room: nat) returns (w: Wire, ws: seq<Wire>)
    requires Inside(b, c) && ReadList(b, c, room).Yes?
    ensures Starts(b, c, w) && IsList(w, ws, room)
    ensures ReadList(b, c, room) == Yes((PayloadsAt(Written(c, w).payload, ws), After(c, w)))
    ensures Holds(b, ReadList(b, c, room).value.0, ws)
  {
    w := NextSound(b, c, List);
    var payload := Written(c, w).payload;
    ws := ReadItemsSound(b, payload, room);
    LinedIff(b, payload, ws);
    AtSlice(b, payload.base, EncodeAll(ws));
  }

  lemma ReadListWritten(b: bytes, c: Ctx, room: nat, w: Wire, ws: seq<Wire>)
    requires Inside(b, c) && Starts(b, c, w) && IsList(w, ws, room)
    ensures ReadList(b, c, room) == Yes((PayloadsAt(Written(c, w).payload, ws), After(c, w)))
    ensures Holds(b, ReadList(b, c, room).value.0, ws)
  {
    NextWritten(b, c, w);
    var payload := Written(c, w).payload;
    AtSlice(b, payload.base, EncodeAll(ws));
    LinedIff(b, payload, ws);
    ReadItemsWritten(b, payload, room, ws);
  }

  lemma ReadIntSound(b: bytes, c: Ctx) returns (w: Wire)
    requires Inside(b, c) && ReadInt(b, c).Yes?
    ensures Starts(b, c, w) && IsNumber(w) && ReadInt(b, c) == Yes((FromBigEndian(w.payload), After(c, w)))
  {
    w := NextSound(b, c, String);
  }

  lemma ReadIntWritten(b: bytes, c: Ctx, w: Wire)
    requires Inside(b, c) && Starts(b, c, w) && IsNumber(w)
    ensures ReadInt(b, c) == Yes((FromBigEndian(w.payload), After(c, w)))
  {
    NextWritten(b, c, w);
  }

  lemma ReadBytesSound(b: bytes, c: Ctx) returns (w: Wire)
    requires Inside(b, c) && ReadBytes(b, c).Yes?
    ensures Starts(b, c, w) && IsString(w)
    ensures ReadBytes(b, c) == Yes((Written(c, w).payload, After(c, w))) && HoldsOne(b, ReadBytes(b, c).value.0, w)
  {
    w := NextSound(b, c, String);
  }

  lemma ReadBytesWritten(b: bytes, c: Ctx, w: Wire)
    requires Inside(b, c) && Starts(b, c, w) && IsString(w)
    ensures ReadBytes(b, c) == Yes((Written(c, w).payload, After(c, w))) && HoldsOne(b, ReadBytes(b, c).value.0, w)
  {
    NextWritten(b, c, w);
  }

  lemma ReadScriptSound(h: Hash, b: bytes, c: Ctx, shaOk: bool) returns (w: Wire)
    requires Inside(b, c) && ReadScript(h, b, c, shaOk).Yes?
    ensures Starts(b, c, w) && IsString(w) && shaOk && ReadScript(h, b, c, shaOk) == Yes((h(w.payload), After(c, w)))
  {
    w := ReadBytesSound(b, c);
  }

  lemma ReadScriptWritten(h: Hash, b: bytes, c: Ctx, w: Wire)
    requires Inside(b, c) && Starts(b, c, w) && IsString(w)
    ensures ReadScript(h, b, c, true) == Yes((h(w.payload), After(c, w)))
  {
    ReadBytesWritten(b, c, w);
  }

  // ---------------------------------------------------------------- all fields

  /** The cursor behind items. */
  function End(c: Ctx, ws: seq<Wire>): Ctx
    requires AreWires(ws)
    decreases |ws|
  {
    if ws == [] then c else End(After(c, ws[0]), ws[1..])
  }

  lemma {:induction false} EndIs(c: Ctx, ws: seq<Wire>)
    requires AreWires(ws)
    ensures End(c, ws) == Past(c, |EncodeAll(ws)|)
    decreases |ws|
  {
    if ws != [] { EndIs(After(c, ws[0]), ws[1..]); }
  }

  lemma LinedStep(b: bytes, c: Ctx, w: Wire, ws: seq<Wire>, all: seq<Wire>)
    requires IsWire(w) && AreWires(ws) && |all| == |ws| + 1 && all[0] == w && all[1..] == ws
    ensures AreWires(all) && End(c, all) == End(After(c, w), ws)
    ensures Lined(b, c, all) <==> Starts(b, c, w) && Lined(b, After(c, w), ws)
  {
    forall i | 0 <= i < |all| ensures IsWire(all[i]) { if i > 0 { assert all[i] == ws[i - 1]; } }
  }

  lemma LayoutWires(l: Layout)
    requires IsLayout(l)
    ensures AreWires(Fields(l)) && AreWires(l.args) && AreWires(l.authorizers)
  {
  }

  /** The cursors in front of the nine fields, and behind the last. */
  datatype Cursors = Cursors(c1: Ctx, c2: Ctx, c3: Ctx, c4: Ctx, c5: Ctx, c6: Ctx, c7: Ctx, c8: Ctx, c9: Ctx)

  function CursorsOf(c: Ctx, l: Layout): Cursors
    requires IsLayout(l)
  {
    var c1 := After(c, l.script);
    var c2 := After(c1, l.argList);
    var c3 := After(c2, l.refBlock);
    var c4 := After(c3, l.gas);
    var c5 := After(c4, l.proposer);
    var c6 := After(c5, l.keyId);
    var c7 := After(c6, l.seqNum);
    var c8 := After(c7, l.payer);
    Cursors(c1, c2, c3, c4, c5, c6, c7, c8, After(c8, l.authorizerList))
  }

  predicate StartFields(b: bytes, c: Ctx, l: Layout)
    requires IsLayout(l)
  {
    var k := CursorsOf(c, l);
    && Starts(b, c, l.script) && Starts(b, k.c1, l.argList) && Starts(b, k.c2, l.refBlock) && Starts(b, k.c3, l.gas)
    && Starts(b, k.c4, l.proposer) && Starts(b, k.c5, l.keyId) && Starts(b, k.c6, l.seqNum) && Starts(b, k.c7, l.payer)
    && Starts(b, k.c8, l.authorizerList)
  }

  /** Every recorded span is the payload of its item, at the item's place in the list. */
  predicate Placed(tx: Tx, c: Ctx, l: Layout)
    requires IsLayout(l)
  {
    var k := CursorsOf(c, l);
    && tx.args == PayloadsAt(Written(k.c1, l.argList).payload, l.args)
    && tx.refBlock == Written(k.c2, l.refBlock).payload
    && tx.proposer == Written(k.c4, l.proposer).payload && tx.payer == Written(k.c7, l.payer).payload
    && tx.authorizers == PayloadsAt(Written(k.c8, l.authorizerList).payload, l.authorizers)
  }

  lemma FieldsLined(b: bytes, c: Ctx, l: Layout)
    requires IsLayout(l)
    ensures AreWires(Fields(l)) && End(c, Fields(l)) == CursorsOf(c, l).c9
    ensures Lined(b, c, Fields(l)) <==> StartFields(b, c, l)
  {
    hide Starts, Encode, EncodeAll;
    var k := CursorsOf(c, l);
    var f := Fields(l);
    assert End(k.c9, []) == k.c9 && Lined(b, k.c9, []);
    LinedStep(b, k.c8, l.authorizerList, [], [l.authorizerList]);
    LinedStep(b, k.c7, l.payer, [l.authorizerList], f[7..]);
    LinedStep(b, k.c6, l.seqNum, f[7..], f[6..]);
    LinedStep(b, k.c5, l.keyId, f[6..], f[5..]);
    LinedStep(b, k.c4, l.proposer, f[5..], f[4..]);
    LinedStep(b, k.c3, l.gas, f[4..], f[3..]);
    LinedStep(b, k.c2, l.refBlock, f[3..], f[2..]);
    LinedStep(b, k.c1, l.argList, f[2..], f[1..]);
    LinedStep(b, c, l.script, f[1..], f);
  }

  lemma ReadFieldsSound(h: Hash, b: bytes, c: Ctx, shaOk: bool) returns (l: Layout)
    requires Inside(b, c) && ReadFields(h, b, c, shaOk).Yes?
    ensures IsLayout(l) && shaOk && StartFields(b, c, l) && ReadFields(h, b, c, shaOk).value.1 == CursorsOf(c, l).c9
    ensures Reads(h, b, ReadFields(h, b, c, shaOk).value.0, l) && Placed(ReadFields(h, b, c, shaOk).value.0, c, l)
  {
    hide ReadList, ReadBytes, ReadInt, ReadScript, Starts, Holds, HoldsOne, PayloadsAt, FromBigEndian, EncodeAll,
        AreStrings;
    var script := ReadScriptSound(h, b, c, shaOk);
    var c1 := After(c, script);
    var argList, args := ReadListSound(b, c1, MAX_ARGUMENTS);
    var c2 := After(c1, argList);
    var refBlock := ReadBytesSound(b, c2);
    var c3 := After(c2, refBlock);
    var gas := ReadIntSound(b, c3);
    var c4 := After(c3, gas);
    var proposer := ReadBytesSound(b, c4);
    var c5 := After(c4, proposer);
    var keyId := ReadIntSound(b, c5);
    var c6 := After(c5, keyId);
    var seqNum := ReadIntSound(b, c6);
    var c7 := After(c6, seqNum);
    var payer := ReadBytesSound(b, c7);
    var c8 := After(c7, payer);
    var authorizerList, authorizers := ReadListSound(b, c8, MAX_AUTHORIZERS);
    l := Layout(script, argList, args, refBlock, gas, proposer, keyId, seqNum, payer, authorizerList, authorizers);
  }

  lemma ReadFieldsWritten(h: Hash, b: bytes, c: Ctx, l: Layout)
    requires Inside(b, c) && IsLayout(l) && StartFields(b, c, l)
    ensures ReadFields(h, b, c, true).Yes? && ReadFields(h, b, c, true).value.1 == CursorsOf(c, l).c9
    ensures Reads(h, b, ReadFields(h, b, c, true).value.0, l) && Placed(ReadFields(h, b, c, true).value.0, c, l)
  {
    hide ReadList, ReadBytes, ReadInt, ReadScript, Starts, Holds, HoldsOne, PayloadsAt, FromBigEndian, EncodeAll,
        AreStrings;
    var k := CursorsOf(c, l);
    ReadScriptWritten(h, b, c, l.script);
    ReadListWritten(b, k.c1, MAX_ARGUMENTS, l.argList, l.args);
    ReadBytesWritten(b, k.c2, l.refBlock);
    ReadIntWritten(b, k.c3, l.gas);
    ReadBytesWritten(b, k.c4, l.proposer);
    ReadIntWritten(b, k.c5, l.keyId);
    ReadIntWritten(b, k.c6, l.seqNum);
    ReadBytesWritten(b, k.c7, l.payer);
    ReadListWritten(b, k.c8, MAX_AUTHORIZERS, l.authorizerList, l.authorizers);
  }

  // ---------------------------------------------------------------- the whole buffer

  /** A whole buffer: the list of fields, and whatever else the root list holds behind it. */
  datatype Document = Document(layout: Layout, innerForm: Form, trailing: bytes, rootForm: Form)

  function Inner(d: Document): Wire
    requires IsLayout(d.layout)
  {
    LayoutWires(d.layout);
    Wire(List, d.innerForm, EncodeAll(Fields(d.layout)))
  }

  predicate HasInner(d: Document) { IsLayout(d.layout) && IsWire(Inner(d)) }

  function Root(d: Document): Wire
    requires HasInner(d)
  {
    Wire(List, d.rootForm, Encode(Inner(d)) + d.trailing)
  }

  predicate IsDocument(d: Document) { HasInner(d) && IsWire(Root(d)) }

  /** The part of a buffer that the parser looks at. */
  function Seen(b: bytes): bytes { b[..|b| % 0x10000] }

  lemma AllFieldsSound(h: Hash, b: bytes, c: Ctx, shaOk: bool) returns (l: Layout)
    requires Inside(b, c) && c.off == 0 && ReadFields(h, b, c, shaOk).Yes?
      && ReadFields(h, b, c, shaOk).value.1.off == c.len
    ensures shaOk && IsLayout(l) && AreWires(Fields(l)) && TextOf(b, c) == EncodeAll(Fields(l))
    ensures Reads(h, b, ReadFields(h, b, c, shaOk).value.0, l) && Placed(ReadFields(h, b, c, shaOk).value.0, c, l)
  {
    hide ReadFields, Reads, Placed, IsLayout, Fields, EncodeAll, StartFields, Lined, CursorsOf, End;
    l := ReadFieldsSound(h, b, c, shaOk);
    FieldsLined(b, c, l);
    EndIs(c, Fields(l));
    LinedIff(b, c, Fields(l));
    AtSlice(b, c.base, EncodeAll(Fields(l)));
  }

  lemma AllFieldsWritten(h: Hash, b: bytes, c: Ctx, l: Layout)
    requires Inside(b, c) && c.off == 0 && IsLayout(l) && AreWires(Fields(l)) && TextOf(b, c) == EncodeAll(Fields(l))
    ensures ReadFields(h, b, c, true).Yes? && ReadFields(h, b, c, true).value.1.off == c.len
    ensures Reads(h, b, ReadFields(h, b, c, true).value.0, l) && Placed(ReadFields(h, b, c, true).value.0, c, l)
  {
    hide ReadFields, Reads, Placed, IsLayout, Fields, EncodeAll, StartFields, Lined, CursorsOf, End;
    AtSlice(b, c.base, EncodeAll(Fields(l)));
    FieldsLined(b, c, l);
    EndIs(c, Fields(l));
    LinedIff(b, c, Fields(l));
    ReadFieldsWritten(h, b, c, l);
  }

  lemma NextOfText(b: bytes, c: Ctx, w: Wire, rest: bytes)
    requires Inside(b, c) && c.off == 0 && IsWire(w) && TextOf(b, c) == Encode(w) + rest
    ensures Next(b, c, w.kind) == Yes((Written(c, w), After(c, w))) && HoldsOne(b, Written(c, w).payload, w)
  {
    AtSlice(b, c.base, Encode(w) + rest);
    AtSplit(b, c.base, Encode(w), rest);
    NextWritten(b, c, w);
  }

  lemma TextOfNext(b: bytes, c: Ctx, kind: Kind) returns (w: Wire, rest: bytes)
    requires Inside(b, c) && c.off == 0 && Next(b, c, kind).Yes?
    ensures IsWire(w) && w.kind == kind && TextOf(b, c) == Encode(w) + rest
    ensures Next(b, c, kind) == Yes((Written(c, w), After(c, w))) && HoldsOne(b, Written(c, w).payload, w)
  {
    w := NextSound(b, c, kind);
    rest := TextOf(b, c)[|Encode(w)|..];
    AtSlice(b, c.base, Encode(w));
    assert TextOf(b, c)[..|Encode(w)|] == b[c.base..c.base + |Encode(w)|];
  }

  /** Where the fields are in a buffer filled by a root list that starts with an inner list. */
  function FieldsAt(c: Ctx, root: Wire, inner: Wire): Ctx
    requires IsWire(root) && IsWire(inner)
  {
    Written(Written(c, root).payload, inner).payload
  }

  predicate Nested(text: bytes, root: Wire, inner: Wire, trailing: bytes) {
    && IsWire(root) && root.kind == List && text == Encode(root)
    && IsWire(inner) && inner.kind == List && root.payload == Encode(inner) + trailing
  }

  lemma ReadTxNested(h: Hash, b: bytes, c: Ctx, shaOk: bool, root: Wire, inner: Wire, trailing: bytes)
    requires Inside(b, c) && c.off == 0 && Nested(TextOf(b, c), root, inner, trailing)
    ensures HoldsOne(b, FieldsAt(c, root, inner), inner)
    ensures var fields := ReadFields(h, b, FieldsAt(c, root, inner), shaOk);
      (if fields.Yes? && fields.value.1.off == fields.value.1.len then ReadTx(h, b, c, shaOk) == Yes(fields.value.0)
       else ReadTx(h, b, c, shaOk).No?)
  {
    assert Encode(root) + [] == Encode(root);
    NextOfText(b, c, root, []);
    NextOfText(b, Written(c, root).payload, inner, trailing);
  }

  lemma NestedSound(h: Hash, b: bytes, c: Ctx, shaOk: bool) returns (root: Wire, inner: Wire, trailing: bytes)
    requires Inside(b, c) && c.off == 0 && ReadTx(h, b, c, shaOk).Yes?
    ensures Nested(TextOf(b, c), root, inner, trailing)
  {
    var nothing;
    root, nothing := TextOfNext(b, c, List);
    assert nothing == [] && Encode(root) + nothing == Encode(root);
    inner, trailing := TextOfNext(b, Written(c, root).payload, List);
  }

  lemma ReadFieldsEnd(h: Hash, b: bytes, c: Ctx, shaOk: bool)
    requires Inside(b, c) && ReadFields(h, b, c, shaOk).Yes?
    ensures ReadFields(h, b, c, shaOk).value.1.len == c.len
  {
    var l := ReadFieldsSound(h, b, c, shaOk);
  }

  /** The bytes the parser looks at. */
  function Whole(b: bytes): Ctx { Ctx(0, |b| % 0x10000, 0) }

  /** Where the list of fields of a document is. */
  function FieldsOf(b: bytes, d: Document): Ctx
    requires IsDocument(d)
  {
    FieldsAt(Whole(b), Root(d), Inner(d))
  }

  /**
   * Every accepted buffer is a document: fields, arguments and authorizers tile their lists without gap or
   * overlap, and every span of the record is the payload of its item, at its place.
   */
  lemma ParseSound(h: Hash, b: bytes, shaOk: bool) returns (d: Document)
    requires Parse(h, b, shaOk).Yes?
    ensures shaOk && IsDocument(d) && Seen(b) == Encode(Root(d)) && Reads(h, b, Parse(h, b, shaOk).value, d.layout)
    ensures Placed(Parse(h, b, shaOk).value, FieldsOf(b, d), d.layout)
  {
    var c := Whole(b);
    var root, inner, trailing := NestedSound(h, b, c, shaOk);
    ReadTxNested(h, b, c, shaOk, root, inner, trailing);
    ReadFieldsEnd(h, b, FieldsAt(c, root, inner), shaOk);
    var l := AllFieldsSound(h, b, FieldsAt(c, root, inner), shaOk);
    d := Document(l, inner.form, trailing, root.form);
    assert Inner(d) == inner;
    assert Root(d) == root;
  }

  /** Every document is accepted and read back. */
  lemma ParseWritten(h: Hash, b: bytes, d: Document)
    requires IsDocument(d) && Seen(b) == Encode(Root(d))
    ensures Parse(h, b, true).Yes? && Reads(h, b, Parse(h, b, true).value, d.layout)
    ensures Placed(Parse(h, b, true).value, FieldsOf(b, d), d.layout)
  {
    LayoutWires(d.layout);
    ReadTxFields(h, b, Root(d), Inner(d), d.trailing, d.layout);
  }

  lemma ReadTxFields(h: Hash, b: bytes, root: Wire, inner: Wire, trailing: bytes, l: Layout)
    requires Nested(Seen(b), root, inner, trailing)
    requires IsLayout(l) && AreWires(Fields(l)) && inner.payload == EncodeAll(Fields(l))
    ensures Parse(h, b, true).Yes? && Reads(h, b, Parse(h, b, true).value, l)
    ensures Placed(Parse(h, b, true).value, FieldsAt(Whole(b), root, inner), l)
  {
    hide ReadFields, ReadTx, Reads, Placed, IsLayout, Fields, EncodeAll, Starts;
    var c := Whole(b);
    ReadTxNested(h, b, c, true, root, inner, trailing);
    AllFieldsWritten(h, b, FieldsAt(c, root, inner), l);
    ReadFieldsEnd(h, b, FieldsAt(c, root, inner), true);
    assert |Encode(root)| > 0;
  }

  /** The parser accepts exactly the buffers that hold a document. */
  lemma ParseIff(h: Hash, b: bytes, shaOk: bool)
    ensures Parse(h, b, shaOk).Yes? <==> shaOk && exists d :: IsDocument(d) && Seen(b) == Encode(Root(d))
  {
    if Parse(h, b, shaOk).Yes? { var d := ParseSound(h, b, shaOk); }
    if d :| IsDocument(d) && Seen(b) == Encode(Root(d)) { ParseWritten(h, b, d); }
  }

  /** All spans lie inside the buffer. */
  predicate AllInside(b: bytes, tx: Tx) {
    && (forall i :: 0 <= i < |tx.args| ==> Inside(b, tx.args[i]))
    && (forall i :: 0 <= i < |tx.authorizers| ==> Inside(b, tx.authorizers[i]))
    && Inside(b, tx.refBlock) && Inside(b, tx.proposer) && Inside(b, tx.payer)
  }

  lemma ParsedInside(h: Hash, b: bytes, shaOk: bool)
    ensures Parse(h, b, shaOk).Yes? ==> AllInside(b, Parse(h, b, shaOk).value)
  {
    hide Parse, Root, Placed, FieldsOf;
    if Parse(h, b, shaOk).Yes? { var d := ParseSound(h, b, shaOk); }
  }

  /** The texts of spans. */
  function TextsOf(b: bytes, spans: seq<Ctx>): (r: seq<bytes>)
    requires forall i :: 0 <= i < |spans| ==> Inside(b, spans[i])
    ensures |r| == |spans|
  {
    seq(|spans|, i requires 0 <= i < |spans| => TextOf(b, spans[i]))
  }
}
