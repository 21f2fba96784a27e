/** Which transactions are refused with which error (src/rlp.c and src/parser_impl.c). */
module FlowErrors {
  import opened Bytes
  import opened Errors
  import opened MerkleTree
  import opened Rlp
  import opened FlowTx

  /** An item begins whose length takes more than two bytes, and all bytes of the length are there. */
  predicate LengthTooLong(b: bytes, c: Ctx)
    requires Inside(b, c)
  {
    && c.off < c.len
    && var p := b[c.base + c.off];
    && ((0xba <= p <= 0xbf && c.len - c.off >= p - 0xb6) || (0xfa <= p && c.len - c.off >= p - 0xf6))
  }

  /** Decoding gives an item, or finds a length that is too long, or the end of the bytes too early. */
  lemma DecodeErrorsIff(b: bytes, c: Ctx)
    requires Inside(b, c)
    ensures Decode(b, c) == No(RlpInvalidValueLen) <==> LengthTooLong(b, c)
    ensures Decode(b, c) == No(UnexpectedBufferEnd) <==>
      !LengthTooLong(b, c) && forall w :: IsWire(w) ==> !Starts(b, c, w)
    ensures Decode(b, c).No? ==> Decode(b, c).err in {RlpInvalidValueLen, UnexpectedBufferEnd}
  {
    hide IsWire, Starts;
    if Decode(b, c).Yes? {
      var w := DecodeSound(b, c);
      assert IsWire(w) by { StartsIsWire(b, c, w); }
    } else {
      forall w | IsWire(w) ensures !Starts(b, c, w) {
        if Starts(b, c, w) { DecodeWritten(b, c, w); }
      }
    }
  }

  lemma StartsIsWire(b: bytes, c: Ctx, w: Wire)
    requires Starts(b, c, w)
    ensures IsWire(w)
  {
  }

  /** The next item is refused for its kind exactly when one of the other kind stands there. */
  lemma NextErrorsIff(b: bytes, c: Ctx, kind: Kind)
    requires Inside(b, c)
    ensures Next(b, c, kind) == No(RlpInvalidKind) <==> exists w :: IsWire(w) && Starts(b, c, w) && w.kind != kind
    ensures Next(b, c, kind).No? && Next(b, c, kind).err != RlpInvalidKind ==>
      Decode(b, c) == No(Next(b, c, kind).err)
  {
    hide IsWire, Starts, Decode;
    DecodeErrorsIff(b, c);
    if Next(b, c, kind) == No(RlpInvalidKind) {
      var w := DecodeSound(b, c);
      StartsIsWire(b, c, w);
      assert Written(c, w).kind == w.kind;
    }
    if w :| IsWire(w) && Starts(b, c, w) && w.kind != kind { DecodeWritten(b, c, w); }
  }

  /** A list is refused for the number of its items exactly when it goes on behind as many as there is room for. */
  lemma {:induction false} ItemErrorsIff(b: bytes, c: Ctx, room: nat)
    requires Inside(b, c) && c.off <= c.len
    ensures ReadItems(b, c, room) == No(UnexpectedNumberItems) <==>
      exists ws :: AreStrings(ws) && |ws| == room && Lined(b, c, ws) && c.off + |EncodeAll(ws)| < c.len
    decreases c.len - c.off
  {
    hide Next, Encode, Starts, IsWire;
    NextKnown(b, c);
    if c.off < c.len && room == 0 {
      assert AreStrings([]) && Lined(b, c, []) && EncodeAll([]) == [];
    } else if c.off < c.len && Next(b, c, String).Yes? {
      var w := NextSound(b, c, String);
      var next := After(c, w);
      ItemErrorsIff(b, next, room - 1);
      if rest :|
        AreStrings(rest) && |rest| == room - 1 && Lined(b, next, rest) && next.off + |EncodeAll(rest)| < c.len
      {
        var ws := [w] + rest;
        StartsIsWire(b, c, w);
        assert ws[0] == w && ws[1..] == rest;
        assert AreStrings(ws) && Lined(b, c, ws);
      }
      if ws :| AreStrings(ws) && |ws| == room && Lined(b, c, ws) && c.off + |EncodeAll(ws)| < c.len {
        NextWritten(b, c, ws[0]);
        assert AreStrings(ws[1..]);
      }
    }
  }

  /** The next item never reports the number of items. */
  lemma NextKnown(b: bytes, c: Ctx)
    requires Inside(b, c)
    ensures Next(b, c, String).No? ==>
      Next(b, c, String).err in {RlpInvalidKind, RlpInvalidValueLen, UnexpectedBufferEnd}
    ensures forall w :: IsWire(w) && Starts(b, c, w) && w.kind == String ==> Next(b, c, String).Yes?
  {
    hide Decode, Starts;
    NextErrorsIff(b, c, String);
    DecodeErrorsIff(b, c);
    forall w | IsWire(w) && Starts(b, c, w) && w.kind == String ensures Next(b, c, String).Yes? {
      NextWritten(b, c, w);
    }
  }

  /** A number is refused exactly when it takes more than eight bytes. */
  lemma NumberErrorsIff(b: bytes, c: Ctx)
    requires Inside(b, c) && Next(b, c, String).Yes?
    ensures ReadInt(b, c).No? <==> Next(b, c, String).value.0.payload.len > 8
    ensures ReadInt(b, c).No? ==> ReadInt(b, c).err == RlpInvalidValueLen
  {
    hide Decode;
  }

  /** The script is refused by itself only when the hash engine fails. */
  lemma ScriptErrorsIff(h: Hash, b: bytes, c: Ctx, shaOk: bool)
    requires Inside(b, c)
    ensures ReadScript(h, b, c, shaOk) == No(UnexpectedError) <==> ReadBytes(b, c).Yes? && !shaOk
    ensures ReadBytes(b, c).No? ==> ReadScript(h, b, c, shaOk) == No(ReadBytes(b, c).err)
  {
    hide Decode;
    NextKnown(b, c);
  }

  predicate IsFault(e: ParserError) {
    e in {RlpInvalidKind, RlpInvalidValueLen, UnexpectedBufferEnd, UnexpectedNumberItems, UnexpectedError}
  }

  lemma NextFaults(b: bytes, c: Ctx, kind: Kind)
    requires Inside(b, c)
    ensures Next(b, c, kind).No? ==> IsFault(Next(b, c, kind).err)
  {
    hide Decode;
    NextErrorsIff(b, c, kind);
    DecodeErrorsIff(b, c);
  }

  lemma {:induction false} ItemFaults(b: bytes, c: Ctx, room: nat)
    requires Inside(b, c)
    ensures ReadItems(b, c, room).No? ==> IsFault(ReadItems(b, c, room).err)
    decreases c.len - c.off
  {
    hide Next;
    if c.off < c.len && room > 0 {
      NextFaults(b, c, String);
      if Next(b, c, String).Yes? { ItemFaults(b, Next(b, c, String).value.1, room - 1); }
    }
  }

  lemma ListFaults(b: bytes, c: Ctx, room: nat)
    requires Inside(b, c)
    ensures ReadList(b, c, room).No? ==> IsFault(ReadList(b, c, room).err)
  {
    hide Next, ReadItems;
    NextFaults(b, c, List);
    if Next(b, c, List).Yes? { ItemFaults(b, Next(b, c, List).value.0.payload, room); }
  }

  lemma FieldFaults(b: bytes, c: Ctx)
    requires Inside(b, c)
    ensures ReadBytes(b, c).No? ==> IsFault(ReadBytes(b, c).err)
    ensures ReadInt(b, c).No? ==> IsFault(ReadInt(b, c).err)
  {
    hide Next;
    NextFaults(b, c, String);
  }

  lemma ScriptFaults(h: Hash, b: bytes, c: Ctx, shaOk: bool)
    requires Inside(b, c)
    ensures ReadScript(h, b, c, shaOk).No? ==> IsFault(ReadScript(h, b, c, shaOk).err)
  {
    hide ReadBytes;
    FieldFaults(b, c);
  }

  lemma AllFieldFaults(h: Hash, b: bytes, c: Ctx, shaOk: bool)
    requires Inside(b, c)
    ensures ReadFields(h, b, c, shaOk).No? ==> IsFault(ReadFields(h, b, c, shaOk).err)
  {
    hide ReadScript, ReadList, ReadBytes, ReadInt, IsFault;
    ScriptFaults(h, b, c, shaOk);
    if ReadScript(h, b, c, shaOk).No? { return; }
    var c1 := ReadScript(h, b, c, shaOk).value.1;
    ListFaults(b, c1, MAX_ARGUMENTS);
    if ReadList(b, c1, MAX_ARGUMENTS).No? { return; }
    var c2 := ReadList(b, c1, MAX_ARGUMENTS).value.1;
    FieldFaults(b, c2);
    if ReadBytes(b, c2).No? { return; }
    var c3 := ReadBytes(b, c2).value.1;
    FieldFaults(b, c3);
    if ReadInt(b, c3).No? { return; }
    var c4 := ReadInt(b, c3).value.1;
    FieldFaults(b, c4);
    if ReadBytes(b, c4).No? { return; }
    var c5 := ReadBytes(b, c4).value.1;
    FieldFaults(b, c5);
    if ReadInt(b, c5).No? { return; }
    var c6 := ReadInt(b, c5).value.1;
    FieldFaults(b, c6);
    if ReadInt(b, c6).No? { return; }
    var c7 := ReadInt(b, c6).value.1;
    FieldFaults(b, c7);
    if ReadBytes(b, c7).Yes? { ListFaults(b, ReadBytes(b, c7).value.1, MAX_AUTHORIZERS); }
  }

  /** A buffer is refused as empty exactly when its length is a multiple of 65536; other faults have other codes. */
  lemma EmptyIff(h: Hash, b: bytes, shaOk: bool)
    ensures FlowTx.Parse(h, b, shaOk) == No(InitContextEmpty) <==> |b| % 0x10000 == 0
    ensures FlowTx.Parse(h, b, shaOk).No? && |b| % 0x10000 != 0 ==> IsFault(FlowTx.Parse(h, b, shaOk).err)
  {
    hide Next, ReadFields;
    if |b| % 0x10000 != 0 {
      var c := Ctx(0, |b| % 0x10000, 0);
      NextFaults(b, c, List);
      if Next(b, c, List).Yes? {
        var inner := Next(b, c, List).value.0.payload;
        NextFaults(b, inner, List);
        if Next(b, inner, List).Yes? { AllFieldFaults(h, b, Next(b, inner, List).value.0.payload, shaOk); }
      }
    }
  }

  /** A root list that leaves bytes behind it, or fields that leave bytes behind them, end the parse early. */
  lemma LeftoverIsBufferEnd(h: Hash, b: bytes, shaOk: bool)
    requires 0 < |b| < 0x10000 && Next(b, Ctx(0, |b|, 0), List).Yes?
    ensures Next(b, Ctx(0, |b|, 0), List).value.1.off < |b| ==> FlowTx.Parse(h, b, shaOk) == No(UnexpectedBufferEnd)
  {
    hide Decode;
  }
}
