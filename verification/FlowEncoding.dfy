/**
 * The round trip: a transaction written with the encoding of Appendix B of the Ethereum Yellow Paper, in
 * full generality of lengths, is read back field by field.
 */
module FlowEncoding {
  import opened Bytes
  import opened Metadata
  import opened MerkleTree
  import opened Rlp
  import opened FlowTx

  // ---------------------------------------------------------------- the encoding function

  /** A length prefix: one byte below 56, else the length of the length and the length. */
  function Prefix(base: byte, n: nat): Option<bytes>
    requires base == 0x80 || base == 0xc0
  {
    if n < 56 then Some([base + n])
    else if |BigEndian(n)| <= 8 then Some([base + 55 + |BigEndian(n)|] + BigEndian(n))
    else None
  }

  function RlpString(s: bytes): Option<bytes> {
    if |s| == 1 && s[0] < 0x80 then Some(s)
    else if Prefix(0x80, |s|).Some? then Some(Prefix(0x80, |s|).value + s)
    else None
  }

  /** The list of items that are encoded one behind the other in `s`. */
  function RlpList(s: bytes): Option<bytes> {
    if Prefix(0xc0, |s|).Some? then Some(Prefix(0xc0, |s|).value + s) else None
  }

  function RlpStrings(ss: seq<bytes>): Option<bytes> {
    if ss == [] then Some([])
    else if RlpString(ss[0]).None? || RlpStrings(ss[1..]).None? then None
    else Some(RlpString(ss[0]).value + RlpStrings(ss[1..]).value)
  }

  /** A transaction as a wallet writes it. */
  datatype Transaction = Transaction(script: bytes, args: seq<bytes>, refBlock: bytes, gas: nat, proposer: bytes,
                                     keyId: nat, seqNum: nat, payer: bytes, authorizers: seq<bytes>)

  function Join(a: Option<bytes>, b: Option<bytes>): Option<bytes> {
    if a.Some? && b.Some? then Some(a.value + b.value) else None
  }

  function ListOf(s: Option<bytes>): Option<bytes> { if s.Some? then RlpList(s.value) else None }

  function Number(n: nat): Option<bytes> { RlpString(BigEndian(n)) }

  function EncodeFields(t: Transaction): Option<bytes> {
    Join(RlpString(t.script),
    Join(ListOf(RlpStrings(t.args)),
    Join(RlpString(t.refBlock),
    Join(Number(t.gas),
    Join(RlpString(t.proposer),
    Join(Number(t.keyId),
    Join(Number(t.seqNum),
    Join(RlpString(t.payer),
         ListOf(RlpStrings(t.authorizers))))))))))
  }

  /** The list of the fields, followed by anything, in a list. */
  function EncodeTransaction(t: Transaction, trailing: bytes): Option<bytes> {
    ListOf(Join(ListOf(EncodeFields(t)), Some(trailing)))
  }

  // ---------------------------------------------------------------- the shortest form

  function Shortest(kind: Kind, s: bytes): Wire {
    Wire(kind,
         if kind == String && |s| == 1 && s[0] < 0x80 then Single
         else if |s| < 56 then Short
         else if |s| < 0x100 then Long1
         else Long2,
         s)
  }

  lemma BigEndianValues(n: nat)
    requires 0 < n < 0x10000
    ensures BigEndian(n) == if n < 0x100 then [n] else [n / 256, n % 256]
  {
    assert BigEndian(n) == BigEndian(n / 256) + [n % 256];
    if n >= 0x100 { assert BigEndian(n / 256) == BigEndian(0) + [n / 256]; }
  }

  lemma StringIsShortest(s: bytes)
    requires RlpString(s).Some? && |RlpString(s).value| < 0x10000
    ensures IsString(Shortest(String, s)) && RlpString(s).value == Encode(Shortest(String, s))
  {
    if |s| >= 56 { BigEndianValues(|s|); }
  }

  lemma ListIsShortest(s: bytes)
    requires RlpList(s).Some? && |RlpList(s).value| < 0x10000
    ensures IsWire(Shortest(List, s)) && RlpList(s).value == Encode(Shortest(List, s))
  {
    if |s| >= 56 { BigEndianValues(|s|); }
  }

  function AllShortest(ss: seq<bytes>): (r: seq<Wire>)
    ensures |r| == |ss|
  {
    if ss == [] then [] else [Shortest(String, ss[0])] + AllShortest(ss[1..])
  }

  lemma {:induction false} StringsAreShortest(ss: seq<bytes>)
    requires RlpStrings(ss).Some? && |RlpStrings(ss).value| < 0x10000
    ensures AreStrings(AllShortest(ss)) && RlpStrings(ss).value == EncodeAll(AllShortest(ss))
    ensures forall i :: 0 <= i < |ss| ==> AllShortest(ss)[i].payload == ss[i]
    decreases |ss|
  {
    if ss != [] {
      StringIsShortest(ss[0]);
      StringsAreShortest(ss[1..]);
      assert AllShortest(ss)[1..] == AllShortest(ss[1..]);
    }
  }

  predicate IsTransaction(t: Transaction) {
    && |t.args| <= 10 && |t.authorizers| <= 16
    && t.gas < 0x1_0000_0000_0000_0000 && t.keyId < 0x1_0000_0000_0000_0000 && t.seqNum < 0x1_0000_0000_0000_0000
  }

  function LayoutOf(t: Transaction): Layout {
    var args, auths := AllShortest(t.args), AllShortest(t.authorizers);
    Layout(Shortest(String, t.script), Shortest(List, Payload0(t.args)), args, Shortest(String, t.refBlock),
           Shortest(String, BigEndian(t.gas)), Shortest(String, t.proposer), Shortest(String, BigEndian(t.keyId)),
           Shortest(String, BigEndian(t.seqNum)), Shortest(String, t.payer),
           Shortest(List, Payload0(t.authorizers)), auths)
  }

  function Payload0(ss: seq<bytes>): bytes { if RlpStrings(ss).Some? then RlpStrings(ss).value else [] }

  lemma NumberIsShortest(n: nat)
    requires n < 0x1_0000_0000_0000_0000
    ensures Number(n).Some? && IsNumber(Shortest(String, BigEndian(n)))
      && Number(n).value == Encode(Shortest(String, BigEndian(n)))
    ensures FromBigEndian(Shortest(String, BigEndian(n)).payload) == n
  {
    PowerValues();
    BigEndianLength(n, 8);
    BigEndianRoundTrip(n);
    StringIsShortest(BigEndian(n));
  }

  lemma ListOfIsShortest(ss: seq<bytes>, max: nat)
    requires ListOf(RlpStrings(ss)).Some? && |ListOf(RlpStrings(ss)).value| < 0x10000 && |ss| <= max
    ensures IsList(Shortest(List, Payload0(ss)), AllShortest(ss), max)
    ensures ListOf(RlpStrings(ss)).value == Encode(Shortest(List, Payload0(ss)))
    ensures forall i :: 0 <= i < |ss| ==> AllShortest(ss)[i].payload == ss[i]
  {
    StringsAreShortest(ss);
    ListIsShortest(Payload0(ss));
  }

  // ---------------------------------------------------------------- the round trip

  /** One more item in front of those from `k + 1` on. */
  lemma JoinAt(ws: seq<Wire>, k: nat, part: Option<bytes>, rest: Option<bytes>)
    requires k < |ws| && IsWire(ws[k]) && part == Some(Encode(ws[k]))
    requires AreWires(ws[k + 1..]) && rest == Some(EncodeAll(ws[k + 1..]))
    ensures AreWires(ws[k..]) && Join(part, rest) == Some(EncodeAll(ws[k..]))
  {
    forall i | 0 <= i < |ws[k..]| ensures IsWire(ws[k..][i]) { if i > 0 { assert ws[k..][i] == ws[k + 1..][i - 1]; } }
    assert ws[k..][1..] == ws[k + 1..];
  }

  /** Every part of a joined text is there and no longer than the whole. */
  lemma JoinBound(a: Option<bytes>, b: Option<bytes>)
    requires Join(a, b).Some?
    ensures a.Some? && b.Some? && |Join(a, b).value| == |a.value| + |b.value|
  {
  }

  predicate Small(s: Option<bytes>) { s.Some? && |s.value| < 0x10000 }

  /** The nine parts of the encoding, each small when the whole is. */
  lemma PartsSmall(t: Transaction)
    requires Small(EncodeFields(t))
    ensures Small(RlpString(t.script)) && Small(ListOf(RlpStrings(t.args))) && Small(RlpString(t.refBlock))
    ensures Small(RlpString(t.proposer)) && Small(RlpString(t.payer)) && Small(ListOf(RlpStrings(t.authorizers)))
  {
  }

  lemma LayoutIsLayout(t: Transaction)
    requires IsTransaction(t) && Small(EncodeFields(t))
    ensures IsLayout(LayoutOf(t))
  {
    PartsSmall(t);
    StringIsShortest(t.script);
    ListOfIsShortest(t.args, MAX_ARGUMENTS);
    StringIsShortest(t.refBlock);
    NumberIsShortest(t.gas);
    StringIsShortest(t.proposer);
    NumberIsShortest(t.keyId);
    NumberIsShortest(t.seqNum);
    StringIsShortest(t.payer);
    ListOfIsShortest(t.authorizers, MAX_AUTHORIZERS);
  }

  /** The last five parts. */
  function EncodeKeyFields(t: Transaction): Option<bytes> {
    Join(RlpString(t.proposer),
    Join(Number(t.keyId),
    Join(Number(t.seqNum),
    Join(RlpString(t.payer),
         ListOf(RlpStrings(t.authorizers))))))
  }

  lemma KeyFieldsAreLayout(t: Transaction)
    requires IsTransaction(t) && Small(EncodeKeyFields(t))
    ensures var ws := Fields(LayoutOf(t))[4..]; AreWires(ws) && EncodeKeyFields(t) == Some(EncodeAll(ws))
  {
    var l := LayoutOf(t);
    var f := Fields(l);
    var auths := ListOf(RlpStrings(t.authorizers));
    ListOfIsShortest(t.authorizers, MAX_AUTHORIZERS);
    assert auths == Some(EncodeAll(f[8..])) by {
      assert f[8..] == [l.authorizerList] && f[8..][1..] == []
          && Encode(l.authorizerList) + [] == Encode(l.authorizerList);
    }
    StringIsShortest(t.payer);
    var r7 := Join(RlpString(t.payer), auths);
    JoinAt(f, 7, RlpString(t.payer), auths);
    NumberIsShortest(t.seqNum);
    var r6 := Join(Number(t.seqNum), r7);
    JoinAt(f, 6, Number(t.seqNum), r7);
    NumberIsShortest(t.keyId);
    var r5 := Join(Number(t.keyId), r6);
    JoinAt(f, 5, Number(t.keyId), r6);
    StringIsShortest(t.proposer);
    JoinAt(f, 4, RlpString(t.proposer), r5);
  }

  lemma FieldsAreLayout(t: Transaction)
    requires IsTransaction(t) && Small(EncodeFields(t))
    ensures AreWires(Fields(LayoutOf(t))) && EncodeFields(t) == Some(EncodeAll(Fields(LayoutOf(t))))
  {
    PartsSmall(t);
    KeyFieldsAreLayout(t);
    FirstFieldsAreLayout(t, Fields(LayoutOf(t)), EncodeKeyFields(t));
  }

  lemma FirstFieldsAreLayout(t: Transaction, f: seq<Wire>, r4: Option<bytes>)
    requires IsTransaction(t) && Small(RlpString(t.script)) && Small(ListOf(RlpStrings(t.args)))
      && Small(RlpString(t.refBlock))
    requires f == Fields(LayoutOf(t)) && AreWires(f[4..]) && r4 == Some(EncodeAll(f[4..]))
    ensures AreWires(f)
    ensures Join(RlpString(t.script),
            Join(ListOf(RlpStrings(t.args)),
            Join(RlpString(t.refBlock),
            Join(Number(t.gas), r4))))
         == Some(EncodeAll(f))
  {
    hide Encode, EncodeAll, IsWire, Shortest, RlpString, RlpStrings, Number, ListOf, Join, AreStrings, AllShortest,
        Payload0;
    var args := ListOf(RlpStrings(t.args));
    assert IsWire(f[3]) && Number(t.gas) == Some(Encode(f[3])) by { NumberIsShortest(t.gas); }
    assert IsWire(f[2]) && RlpString(t.refBlock) == Some(Encode(f[2])) by { StringIsShortest(t.refBlock); }
    assert IsWire(f[1]) && args == Some(Encode(f[1])) by { ListOfIsShortest(t.args, MAX_ARGUMENTS); }
    assert IsWire(f[0]) && RlpString(t.script) == Some(Encode(f[0])) by { StringIsShortest(t.script); }
    assert f[0..] == f;
    JoinAt(f, 3, Number(t.gas), r4);
    JoinAt(f, 2, RlpString(t.refBlock), Some(EncodeAll(f[3..])));
    JoinAt(f, 1, args, Some(EncodeAll(f[2..])));
    JoinAt(f, 0, RlpString(t.script), Some(EncodeAll(f[1..])));
  }

  predicate AreTexts(b: bytes, spans: seq<Ctx>, texts: seq<bytes>) {
    |spans| == |texts| && forall i :: 0 <= i < |texts| ==> IsText(b, spans[i], texts[i])
  }

  predicate IsText(b: bytes, span: Ctx, text: bytes) { Inside(b, span) && TextOf(b, span) == text }

  /** The record holds the transaction, with the script's hash in place of the script. */
  predicate ReadsBack(h: Hash, b: bytes, tx: Tx, t: Transaction) {
    && tx.hash == h(t.script) && AreTexts(b, tx.args, t.args) && IsText(b, tx.refBlock, t.refBlock) && tx.gas == t.gas
    && IsText(b, tx.proposer, t.proposer) && tx.keyId == t.keyId && tx.seqNum == t.seqNum
    && IsText(b, tx.payer, t.payer)
    && AreTexts(b, tx.authorizers, t.authorizers)
  }

  lemma ReadsLayout(h: Hash, b: bytes, tx: Tx, t: Transaction)
    requires IsTransaction(t) && Small(EncodeFields(t)) && IsLayout(LayoutOf(t)) && Reads(h, b, tx, LayoutOf(t))
    ensures ReadsBack(h, b, tx, t)
  {
    PartsSmall(t);
    ListOfIsShortest(t.args, MAX_ARGUMENTS);
    ListOfIsShortest(t.authorizers, MAX_AUTHORIZERS);
    NumberIsShortest(t.gas);
    NumberIsShortest(t.keyId);
    NumberIsShortest(t.seqNum);
  }

  /** Every transaction within the limits whose encoding is below 64 KiB is read back exactly. */
  lemma RoundTrip(h: Hash, t: Transaction, trailing: bytes)
    requires IsTransaction(t) && Small(EncodeTransaction(t, trailing))
    ensures var b := EncodeTransaction(t, trailing).value;
      FlowTx.Parse(h, b, true).Yes? && ReadsBack(h, b, FlowTx.Parse(h, b, true).value, t)
  {
    hide EncodeFields, IsTransaction, FlowTx.Nested, FlowTx.Parse, ReadsBack, FlowTx.Root;
    var root, inner := EncodingNested(t, trailing);
    var b := EncodeTransaction(t, trailing).value;
    assert Seen(b) == b;
    NestedRoundTrip(h, b, t, root, inner, trailing);
  }

  lemma NestedRoundTrip(h: Hash, b: bytes, t: Transaction, root: Wire, inner: Wire, trailing: bytes)
    requires IsTransaction(t) && Small(EncodeFields(t)) && inner.payload == EncodeFields(t).value
    requires FlowTx.Nested(Seen(b), root, inner, trailing)
    ensures FlowTx.Parse(h, b, true).Yes? && ReadsBack(h, b, FlowTx.Parse(h, b, true).value, t)
  {
    FieldsAreLayout(t);
    LayoutIsLayout(t);
    ReadTxFields(h, b, root, inner, trailing, LayoutOf(t));
    ReadsLayout(h, b, FlowTx.Parse(h, b, true).value, t);
  }

  lemma EncodingNested(t: Transaction, trailing: bytes) returns (root: Wire, inner: Wire)
    requires Small(EncodeTransaction(t, trailing))
    ensures Small(EncodeFields(t)) && inner.payload == EncodeFields(t).value
    ensures Nested(EncodeTransaction(t, trailing).value, root, inner, trailing)
  {
    var list := ListOf(EncodeFields(t));
    JoinBound(list, Some(trailing));
    inner := Shortest(List, EncodeFields(t).value);
    root := Shortest(List, list.value + trailing);
    ListIsShortest(EncodeFields(t).value);
    ListIsShortest(list.value + trailing);
  }
}
