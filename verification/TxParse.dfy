/**
 * Parsing after the last chunk (src/common/tx.c): first the transaction, then the metadata for its script, then
 * the check of all screens. The theorems tie the whole protocol together: from the chunks that a host sends to
 * the review that is shown.
 */
module TxParse {
  import opened Bytes
  import opened Errors
  import opened Metadata
  import opened MerkleTree
  import opened ProofState
  import opened Chunks
  import opened MerkleSoundness
  import opened Host
  import opened MerkleCompleteness
  import opened Rlp
  import opened FlowTx
  import opened FlowEncoding
  import opened Validation
  import Address
  import JsonNavigator
  import Screens

  /** What is shown for review. */
  datatype Review = Review(tx: Tx, metadata: Option<Meta>)

  /** The root the device knows, the limits of its JSON tables, its settings, and whether its hash engine works. */
  datatype Env = Env(root: Digest, limits: JsonNavigator.Limits, settings: Settings, shaOk: bool)

  function TxMetadataFor(s: State, call: Response, e: Env, scriptHash: Digest): Res<Option<Meta>> {
    if call == FinishedWithMetadata then
      var meta := ProofState.Accepted(s.proof, e.root, scriptHash);
      if meta.Bad? then No(meta.err) else Yes(Some(meta.value))
    else if call == FinishedNoMetadata then if e.settings.expert then Yes(None) else No(UnexpectedScript)
    else No(UnexpectedError)
  }

  /** The configuration of the screens for a parsed transaction. */
  function ScreensOf(b: bytes, e: Env, tx: Tx, metadata: Option<Meta>): (c: Screens.Config)
    requires AllInside(b, tx)
    ensures Screens.IsConfig(c)
  {
    ConfigOf(e.limits, e.settings, metadata, TextsOf(b, tx.args), |tx.authorizers|)
  }

  function TxParse(h: Hash, s: State, call: Response, e: Env): Res<Review> {
    var b := s.buf.contents;
    var tx :- FlowTx.Parse(h, b, e.shaOk);
    var metadata :- TxMetadataFor(s, call, e, tx.hash);
    ParsedInside(h, b, e.shaOk);
    var err := Validated(ScreensOf(b, e, tx, metadata), e.settings, TextOf(b, tx.payer));
    if err != ParserError.Ok then No(err) else Yes(Review(tx, metadata))
  }

  /**
   * Metadata comes from a finished proof of the known root; only in expert mode, and without a proof, there may be
   * none.
   */
  predicate Sanctioned(s: State, call: Response, e: Env, scriptHash: Digest, metadata: Option<Meta>) {
    match metadata
    case None => e.settings.expert && call == FinishedNoMetadata
    case Some(m) =>
      && call == FinishedWithMetadata && s.proof.level == DEPTH + 1 && s.proof.hash == e.root
      && Metadata.Parse(scriptHash, s.proof.metadata).Got? && Metadata.Parse(scriptHash, s.proof.metadata).value == m
  }

  lemma SanctionedIff(s: State, call: Response, e: Env, scriptHash: Digest, metadata: Option<Meta>)
    ensures TxMetadataFor(s, call, e, scriptHash) == Yes(metadata) <==> Sanctioned(s, call, e, scriptHash, metadata)
  {
    hide Metadata.Parse;
  }

  /**
   * A review is shown exactly when the buffer is a transaction, its metadata is sanctioned or dispensed with,
   * and the review can be shown to its end: the metadata fits the arguments, there are at most 126 screens, and
   * all of them print.
   */
  lemma ShownIff(h: Hash, s: State, call: Response, e: Env, tx: Tx, metadata: Option<Meta>)
    ensures TxParse(h, s, call, e) == Yes(Review(tx, metadata))
       <==> && FlowTx.Parse(h, s.buf.contents, e.shaOk) == Yes(tx) && Sanctioned(s, call, e, tx.hash, metadata)
            && AllInside(s.buf.contents, tx)
            && Presentable(ScreensOf(s.buf.contents, e, tx, metadata), e.settings, TextOf(s.buf.contents, tx.payer))
  {
    hide FlowTx.Parse, TxMetadataFor, Sanctioned, Validated, Presentable;
    var b := s.buf.contents;
    ParsedInside(h, b, e.shaOk);
    SanctionedIff(s, call, e, tx.hash, metadata);
    if AllInside(b, tx) {
      ValidatedIff(e.limits, e.settings, metadata, TextsOf(b, tx.args), |tx.authorizers|, TextOf(b, tx.payer));
    }
  }

  /** Stored metadata always fits its buffer. */
  lemma {:induction false} RunMetadataFits(h: Hash, z: Sizes, s: State, chunks: seq<Chunk>)
    requires s.proof.level == 0
    ensures Chunks.Run(h, z, s, chunks).proof.level > 0 ==> |Chunks.Run(h, z, s, chunks).proof.metadata| <= MAX_LENGTH
    decreases |chunks|
  {
    if chunks != [] { RunMetadataFits(h, z, s, chunks[..|chunks| - 1]); }
  }

  /** The chain screen stands in every review, so a review that can be shown has a payer of one of the chains. */
  lemma PresentablePayer(c: Screens.Config, d: Settings, payer: bytes)
    requires Screens.IsConfig(c) && Presentable(c, d, payer)
    ensures Address.ChainOf(payer).Found?
  {
    hide Screens.ArgumentScreens, Screens.Arbitrary, Screens.Authorizers, Screens.Warnings, Screens.Showable;
    var review := Screens.Review(c);
    assert review[if c.metadata.Some? then 1 else 2] == Screens.ChainID;
  }

  /**
   * Whatever chunks were sent: if the device shows a transaction with metadata, its buffer is a transaction
   * document whose script's hash is listed by one of the published metadata texts, what it shows is what that
   * text says, with as many arguments and a payer that is valid for one of the chains - or the run and the
   * published tree contain a collision of the hash.
   */
  lemma ShownMetadataIsPublished(h: Hash, z: Sizes, s: State, chunks: seq<Chunk>, known: seq<bytes>, tree: Node,
                                 call: Response, e: Env)
    returns (d: Document, hashes: seq<Digest>, links: seq<bytes>, at: seq<nat>, x: bytes, y: bytes)
    requires s.proof.level == 0 && Published(h, known, tree) && tree.Node? && e.root == tree.hash
    requires TxParse(h, Chunks.Run(h, z, s, chunks), call, e).Yes?
    requires TxParse(h, Chunks.Run(h, z, s, chunks), call, e).value.metadata.Some?
    ensures var t, review := Chunks.Run(h, z, s, chunks), TxParse(h, Chunks.Run(h, z, s, chunks), call, e).value;
      && IsDocument(d) && Seen(t.buf.contents) == Encode(Root(d)) && Reads(h, t.buf.contents, review.tx, d.layout)
      && RenderedWith(t.proof.metadata, review.metadata.value, hashes, h(d.layout.script.payload))
      && |review.metadata.value.args| == |d.layout.args| && Address.ChainOf(d.layout.payer.payload).Found?
      && |links| == DEPTH + 1 && SentInOrder(chunks, links, at) && links[0] == t.proof.metadata
      && (links[0] in known || (x != y && h(x) == h(y) && x in links && HashedIn(tree, DEPTH, y)))
  {
    var t := Chunks.Run(h, z, s, chunks);
    var review := TxParse(h, t, call, e).value;
    d := ShownDocument(h, t, call, e, review.tx, review.metadata);
    var scriptHash := h(d.layout.script.payload);
    links, at, x, y := AcceptedIsKnown(h, z, s, chunks, known, tree, scriptHash);
    RunMetadataFits(h, z, s, chunks);
    hashes := Metadata.ParseSound(scriptHash, t.proof.metadata);
  }

  /** What a shown review with metadata says about the buffer and the proof. */
  lemma ShownDocument(h: Hash, t: State, call: Response, e: Env, tx: Tx, metadata: Option<Meta>) returns (d: Document)
    requires TxParse(h, t, call, e) == Yes(Review(tx, metadata)) && metadata.Some?
    ensures IsDocument(d) && Seen(t.buf.contents) == Encode(Root(d)) && Reads(h, t.buf.contents, tx, d.layout)
    ensures |metadata.value.args| == |d.layout.args| && Address.ChainOf(d.layout.payer.payload).Found?
    ensures t.proof.level == DEPTH + 1 && t.proof.hash == e.root
    ensures Metadata.Parse(h(d.layout.script.payload), t.proof.metadata).Got?
    ensures Metadata.Parse(h(d.layout.script.payload), t.proof.metadata).value == metadata.value
  {
    hide FlowTx.Parse, TxParse, Metadata.Parse, IsDocument, Root, Encode, Placed, FieldsOf, Screens.Review;
    ShownIff(h, t, call, e, tx, metadata);
    d := FlowTx.ParseSound(h, t.buf.contents, e.shaOk);
    PresentablePayer(ScreensOf(t.buf.contents, e, tx, metadata), e.settings, TextOf(t.buf.contents, tx.payer));
  }

  /**
   * The other way round: a transaction within the limits whose script is published, sent by the host to a device
   * in any state, reaches it together with its metadata, and is shown, field by field, exactly when its review
   * can be shown to its end - unless the published and the empty tree collide.
   */
  lemma PublishedScriptIsShown(h: Hash, z: Sizes, s: State, known: seq<bytes>, tree: Node, empty: Node, d: nat,
      path: bytes,
                               t: Transaction, trailing: bytes, q: nat, m: Meta, hashes: seq<Digest>, e: Env)
    returns (x: bytes, y: bytes)
    requires Published(h, known, tree) && tree.Node? && DistinctPrefixes(Padded(known)) && e.root == tree.hash
      && e.shaOk
    requires d == DEPTH - 1 && EmptyTree(h, empty, d) && z.ram <= z.flash && Fitting(path) && KnownPath(path)
    requires IsTransaction(t) && Small(EncodeTransaction(t, trailing))
      && |EncodeTransaction(t, trailing).value| <= z.flash
    requires q < |known| && |known[q]| <= MAX_LENGTH && RenderedWith(known[q], m, hashes, h(t.script))
    ensures
      || (var message := EncodeTransaction(t, trailing).value;
          var chunks := Sending(known, tree, empty.hash, path, message, h(t.script));
          && chunks.Some? && GoWell(Replies(h, z, s, chunks.value), FinishedWithMetadata)
          && var c := ConfigOf(e.limits, e.settings, Some(m), t.args, |t.authorizers|);
             var shown := TxParse(h, Chunks.Run(h, z, s, chunks.value), FinishedWithMetadata, e);
          && (shown.Yes? <==> Presentable(c, e.settings, t.payer))
          && (shown.Yes? ==> ReadsBack(h, message, shown.value.tx, t) && shown.value.metadata == Some(m)))
      || (x != y && h(x) == h(y) && HashedIn(tree, d + 1, x) && HashedIn(empty, d, y))
  {
    hide EncodeTransaction, IsTransaction, Presentable, TxParse, Sending, ReadsBack, RenderedWith, Published;
    var message := EncodeTransaction(t, trailing).value;
    x, y := EveryListedScriptIsServed(h, z, s, known, tree, empty, d, path, message, q, m, hashes, h(t.script));
    if !(x != y && h(x) == h(y) && HashedIn(tree, d + 1, x) && HashedIn(empty, d, y)) {
      var chunks := Sending(known, tree, empty.hash, path, message, h(t.script)).value;
      ServedIsShown(h, Chunks.Run(h, z, s, chunks), t, trailing, m, e);
    }
  }

  lemma ServedIsShown(h: Hash, s: State, t: Transaction, trailing: bytes, m: Meta, e: Env)
    requires IsTransaction(t) && Small(EncodeTransaction(t, trailing)) && e.shaOk
    requires s.buf.contents == EncodeTransaction(t, trailing).value
    requires ProofState.Accepted(s.proof, e.root, h(t.script)).Got?
      && ProofState.Accepted(s.proof, e.root, h(t.script)).value == m
    ensures var c := ConfigOf(e.limits, e.settings, Some(m), t.args, |t.authorizers|);
      var shown := TxParse(h, s, FinishedWithMetadata, e);
      && (shown.Yes? <==> Presentable(c, e.settings, t.payer))
      && (shown.Yes? ==> ReadsBack(h, s.buf.contents, shown.value.tx, t) && shown.value.metadata == Some(m))
  {
    hide FlowTx.Parse, EncodeTransaction, IsTransaction, Presentable, Validated, Metadata.Parse, ConfigOf;
    RoundTrip(h, t, trailing);
    var b := s.buf.contents;
    var tx := FlowTx.Parse(h, b, true).value;
    assert TextsOf(b, tx.args) == t.args;
    ParsedInside(h, b, true);
    ValidatedIff(e.limits, e.settings, Some(m), t.args, |t.authorizers|, t.payer);
  }
}
