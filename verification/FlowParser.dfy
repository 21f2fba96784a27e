/**
 * The transaction parser as the program runs it: contexts advanced in place, lists read in loops
 * (src/parser_impl.c).
 */
module FlowParser {
  import opened Bytes
  import opened Errors
  import opened Metadata
  import opened MerkleTree
  import opened Rlp
  import opened FlowTx

  /** The value without the cursor behind it. */
  function First<T>(r: Res<(T, Ctx)>): Res<T> { if r.Yes? then Yes(r.value.0) else No(r.err) }

  method ReadNext(b: bytes, c: Context, kind: Kind) returns (r: Res<Item>)
    requires Inside(b, c.Value())
    modifies c
    ensures r == First(Next(b, old(c.Value()), kind))
    ensures r.Yes? ==> c.Value() == Next(b, old(c.Value()), kind).value.1
  {
    DecodeFits(b, c.Value());
    var item := c.RlpDecode(b);
    if item.No? { return No(item.err); }
    var ok := c.CheckAndAdvance(item.value.consumed);
    if !ok { return No(UnexpectedBufferEnd); }
    if item.value.kind != kind { return No(RlpInvalidKind); }
    return item;
  }

  method ReadScriptHash(h: Hash, b: bytes, c: Context, shaOk: bool) returns (r: Res<Digest>)
    requires Inside(b, c.Value())
    modifies c
    ensures r == First(ReadScript(h, b, old(c.Value()), shaOk))
    ensures r.Yes? ==> c.Value() == ReadScript(h, b, old(c.Value()), shaOk).value.1
  {
    var item := ReadNext(b, c, String);
    if item.No? { return No(item.err); }
    if !shaOk { return No(UnexpectedError); }
    return Yes(h(TextOf(b, item.value.payload)));
  }

  method ReadSpan(b: bytes, c: Context) returns (r: Res<Ctx>)
    requires Inside(b, c.Value())
    modifies c
    ensures r == First(ReadBytes(b, old(c.Value())))
    ensures r.Yes? ==> c.Value() == ReadBytes(b, old(c.Value())).value.1
  {
    var item := ReadNext(b, c, String);
    if item.No? { return No(item.err); }
    return Yes(item.value.payload);
  }

  method ReadNumberItem(b: bytes, c: Context) returns (r: Res<nat>)
    requires Inside(b, c.Value())
    modifies c
    ensures r == First(ReadInt(b, old(c.Value())))
    ensures r.Yes? ==> c.Value() == ReadInt(b, old(c.Value())).value.1
  {
    DecodeFits(b, c.Value());
    var item := ReadNext(b, c, String);
    if item.No? { return No(item.err); }
    r := ReadUInt64(b, item.value);
  }

  function Prefixed(read: seq<Ctx>, rest: Res<seq<Ctx>>): Res<seq<Ctx>> {
    if rest.Yes? then Yes(read + rest.value) else rest
  }

  lemma PrefixedOne(read: seq<Ctx>, c: Ctx, rest: Res<seq<Ctx>>)
    ensures rest.Yes? ==> Prefixed(read, Yes([c] + rest.value)) == Prefixed(read + [c], rest)
    ensures Prefixed([], rest) == rest
  {
    if rest.Yes? {
      assert read + ([c] + rest.value) == read + [c] + rest.value;
      assert [] + rest.value == rest.value;
    }
  }

  /** Arguments and authorizers: the strings of a list, counted up to a limit. */
  method ReadStrings(b: bytes, c: Context, max: nat) returns (r: Res<seq<Ctx>>)
    requires Inside(b, c.Value())
    modifies c
    ensures r == First(ReadList(b, old(c.Value()), max))
    ensures r.Yes? ==> c.Value() == ReadList(b, old(c.Value()), max).value.1
  {
    hide Next;
    var outer := ReadNext(b, c, List);
    if outer.No? { return No(outer.err); }
    var list := new Context(outer.value.payload);
    var items: seq<Ctx> := [];
    PrefixedOne([], outer.value.payload, ReadItems(b, outer.value.payload, max));
    while list.off < list.len
      invariant fresh(list) && Inside(b, list.Value()) && |items| <= max
        && c.Value() == Next(b, old(c.Value()), List).value.1
      invariant ReadItems(b, outer.value.payload, max) == Prefixed(items, ReadItems(b, list.Value(), max - |items|))
      decreases list.len - list.off
    {
      if |items| >= max { return No(UnexpectedNumberItems); }
      ghost var before := list.Value();
      var item := ReadNext(b, list, String);
      if item.No? { return No(item.err); }
      PrefixedOne(items, item.value.payload, ReadItems(b, list.Value(), max - |items| - 1));
      items := items + [item.value.payload];
    }
    assert items + [] == items;
    return Yes(items);
  }

  method ReadAllFields(h: Hash, b: bytes, c: Context, shaOk: bool) returns (r: Res<Tx>)
    requires Inside(b, c.Value())
    modifies c
    ensures r == First(ReadFields(h, b, old(c.Value()), shaOk))
    ensures r.Yes? ==> c.Value() == ReadFields(h, b, old(c.Value()), shaOk).value.1
  {
    var hash := ReadScriptHash(h, b, c, shaOk);
    if hash.No? { return No(hash.err); }
    var args := ReadStrings(b, c, MAX_ARGUMENTS);
    if args.No? { return No(args.err); }
    var refBlock := ReadSpan(b, c);
    if refBlock.No? { return No(refBlock.err); }
    var gas := ReadNumberItem(b, c);
    if gas.No? { return No(gas.err); }
    var proposer := ReadSpan(b, c);
    if proposer.No? { return No(proposer.err); }
    var keyId := ReadNumberItem(b, c);
    if keyId.No? { return No(keyId.err); }
    var seqNum := ReadNumberItem(b, c);
    if seqNum.No? { return No(seqNum.err); }
    var payer := ReadSpan(b, c);
    if payer.No? { return No(payer.err); }
    var authorizers := ReadStrings(b, c, MAX_AUTHORIZERS);
    if authorizers.No? { return No(authorizers.err); }
    return Yes(Tx(hash.value, args.value, refBlock.value, gas.value, proposer.value, keyId.value, seqNum.value,
                  payer.value, authorizers.value));
  }

  method Read(h: Hash, b: bytes, c: Context, shaOk: bool) returns (r: Res<Tx>)
    requires Inside(b, c.Value())
    modifies c
    ensures r == ReadTx(h, b, old(c.Value()), shaOk)
  {
    var root := ReadNext(b, c, List);
    if root.No? { return No(root.err); }
    if root.value.consumed != c.len { return No(UnexpectedBufferEnd); }
    var rootList := new Context(root.value.payload);
    var inner := ReadNext(b, rootList, List);
    if inner.No? { return No(inner.err); }
    var innerList := new Context(inner.value.payload);
    r := ReadAllFields(h, b, innerList, shaOk);
    if r.Yes? && innerList.off != innerList.len { return No(UnexpectedBufferEnd); }
  }

  method ParserParse(h: Hash, b: bytes, shaOk: bool) returns (r: Res<Tx>)
    ensures r == FlowTx.Parse(h, b, shaOk)
  {
    var size := |b| % 0x10000;
    if size == 0 { return No(InitContextEmpty); }
    var c := new Context(Ctx(0, size, 0));
    r := Read(h, b, c, shaOk);
  }
}
