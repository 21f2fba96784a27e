# Flow wallet app: a verified model

This project models the decoders, protocols and arithmetic of a hardware-wallet app for the Flow blockchain, of
the host library that talks to it and of the build script behind its table of known transactions. It proves
what they promise, over every input and every run.

* **JSON arguments** (`Jsmn`, `JsmnParser`, `JsonTree`, `JsonEvents`, `JsonBrackets`, `JsonLexemes`, `JsonIndex`,
  `JsonNavigator`).
  The one-pass tokenizer leaves a flat table of spans. For any bytes, it accepts what an explicit stack of brackets
  accepts, and the spans are the pairs that the stack matches and the literals between them, ordered, and nested or
  disjoint; for every JSON document, with white space anywhere, the table is exactly the preorder of the tree with
  its child counts. The documents have their own character sets, those of RFC 8259, and the ends of strings and
  literals are characterized on any bytes. The navigator, which only compares span bounds, then finds what the tree
  says, and reports the error that the tree says.
* **The known-metadata protocol** (`MerkleTree`, `ProofState`, `Chunks`, `ChunkAnswers`, `MerkleSoundness`, `Host`,
  `MerkleCompleteness`, `Buffering`, `TxParse`). The script hashes metadata texts into a tree of 2401 leaves, the
  host sends a message and a path through the tree in chunks, and the device keeps a level and a running hash.
  The hash is an arbitrary function, so the soundness theorem says "a known text, or here are two texts with the
  same digest". `TxParse.ShownMetadataIsPublished` and `TxParse.PublishedScriptIsShown` are the two halves for
  the whole way from chunks to review.
* **Metadata texts** (`Metadata`, `MetadataAnswers`, `Template`): the parser of the device accepts exactly the
  renderings of well-formed metadata that list the script hash, and reads back what the printer of the build script
  writes; the bytes of every kind of argument and the bytes that get each error are given.
* **Transactions** (`Rlp`, `FlowTx`, `FlowParser`, `FlowEncoding`, `FlowErrors`): the parser accepts exactly the buffers in which
  nine fields, the arguments and the authorizers tile their lists, in any of the encodings the decoder takes, and
  reads every transaction written as in Appendix B of the Ethereum Yellow Paper.
* **Bech32 and SegWit addresses** (`Polymod`, `Checksum`, `Bech32`, `BitString`, `Segwit`, `Bech32Rules`,
  `Bech32Vectors`, `SegwitVectors`; BIP-173 and BIP-350): decoding accepts exactly the encodings, and these are the
  valid texts of the rules; the register divides by the published generator over GF(32), published texts come out as
  published, and changes within six neighbouring symbols are always detected.
* **Arithmetic** (`Bignum`, `Calendar`, `Address`, `AddressSyndromes`, `AddressCode`): double dabble is exact in both
  byte orders, dates recompose to their second and agree with a closed formula of the calendar, and the address check
  is a coset test whose three cosets do not meet and which accepts every address that the protocol generates, on its
  own chain alone.
* **The review** (`Screens`, `ScreenOrder`, `Validation`, `Paging`, `ReviewIndex`, `FullReview`): counting and selecting
  screens agree with one list, which is the set of screens that belong to the review in order, the check in front of a review passes exactly when that list can be shown to its end, and going
  through all pages shows every value whole and in order.

Where the program updates things in place, the model does too: classes for the tokenizer, the token table, the
buffer, the proof state, the device, parser contexts and the screen walk, arrays for output buffers, loops where
the program loops. Each such method is proved equal to a function of its inputs and the old state, and the
theorems are about those functions. Bytes are integers below 256; 8-, 16-, 32- and 64-bit wrap-around is written
out where a value can wrap. `dafny verify dfyconfig.toml` checks the project.

Where the code does less than its comments or name suggest, the model follows the code and the exact condition is
a theorem: metadata strings above 100 bytes are printed but refused, an eighth script hash is never matched because
of its 8-bit index, an empty message makes the host send its path as the message, a SegWit address without a
human-readable part is not decoded again and one with a negative version is decoded as version 0 or not at all, pages are covered only while
their number fits in 8 bits, the flat index covers the review only if no item without pages stands in front of
another, a script outside the index is sent as nothing at all although the comment at js/src/signTransaction.js:64
announces a transaction without metadata, and a published script is shown only if its arguments fit the metadata and its review has at most 126 screens
that all print.

## Model

| member | source | states |
|---|---|---|
| Jsmn.StepKeepsInv | deps/jsmn/src/jsmn.c:169-307 | every step of the main loop keeps: all tokens so far closed or open at their bracket, delimited within the text read, pairwise nested or disjoint and in order |
| Jsmn.ParseSound | deps/jsmn/src/jsmn.c:162-319 | on any bytes that are accepted, every token is closed, lies in the text, has its delimiters around it, and any two are ordered and nested or disjoint |
| JsonBrackets.ParseMatches | deps/jsmn/src/jsmn.c:162-319 | on any bytes: refused exactly as an explicit stack of brackets refuses, with the same error; otherwise the containers of the table are exactly the pairs of brackets that the stack matches in the main loop, and the other tokens exactly the strings and primitives read, in order |
| JsonBrackets.BuildMatches | deps/jsmn/src/jsmn.c:194-243 | from any table, searching it for the last open token gives what an explicit stack gives |
| JsmnParser.Parser.AllocToken | deps/jsmn/src/jsmn.c:6-19 | takes the next entry of the table, with no start, end or children, or reports that it is full; no other entry changes |
| JsmnParser.Parser.ParsePrimitive | deps/jsmn/src/jsmn.c:35-84 | the literal up to its delimiter becomes a token, the scan goes back one place; control characters and a full table are refused with the position restored |
| JsmnParser.Parser.ParseString | deps/jsmn/src/jsmn.c:89-157 | the text between the quotes becomes a token; otherwise the error of the first fault, with the position restored; where strings end is JsonLexemes.StringExactly |
| JsmnParser.Parser.CloseContainer | deps/jsmn/src/jsmn.c:194-243 | the innermost open token of the same kind gets its end, the one around it becomes the parent |
| JsmnParser.Parser.LeaveKey | deps/jsmn/src/jsmn.c:259-276 | a comma behind a value goes back from the key to the innermost open container |
| JsmnParser.Parser.Parse | deps/jsmn/src/jsmn.c:162-319 | the loops of the program give exactly the tokens and the count, or the error, of the specified scan |
| JsonEvents.ScanIsBuild | deps/jsmn/src/jsmn.c:162-319 | the scan is the composition of reading characters as events and building the table from events |
| JsonEvents.TokenizesDocument | deps/jsmn/src/jsmn.c:162-319 | every document of RFC 8259 in ASCII, with its own character sets and white space anywhere, tokenizes to the preorder of its nodes with their child counts, exactly when the table has room |
| JsonLexemes.StringExactly | deps/jsmn/src/jsmn.c:89-157 | on any bytes, a string goes up to a place exactly when the bytes before it are a body of RFC 8259, in characters below 128, and a quote stands there; it is invalid exactly when a backslash without an escape follows a body, and cut short otherwise |
| JsonLexemes.LiteralExactly | deps/jsmn/src/jsmn.c:35-84 | on any bytes, a literal goes up to the first blank, colon, comma, closing bracket or end, over characters from 32 to 126, and is invalid when another character comes first |
| JsonIndex.HoldsWithin | src/json/json_parser.c:69-250 | the table of a document holds the tokens of every node inside it, at that node's place |
| JsonIndex.ArrayElementsAreItems | src/json/json_parser.c:69-132 | the walk by span bounds over an array finds exactly its items, in order |
| JsonIndex.ObjectKeysAreMembers | src/json/json_parser.c:134-199 | the walk by span bounds over an object finds exactly its keys, in order |
| JsonIndex.LookupIsFind | src/json/json_parser.c:215-250 | the lookup of a name finds the value of the first member of that name, or nothing when there is none |
| JsonNavigator.ParsedJson.Parse | src/json/json_parser.c:23-67 | tokenizes into the table and translates the errors |
| JsonNavigator.ParsedJson.ArrayElementCount | src/json/json_parser.c:69-97 | the loop counts the elements of the walk |
| JsonNavigator.ParsedJson.ArrayNthElement | src/json/json_parser.c:99-132 | the loop returns the element at the index, or that there is none |
| JsonNavigator.ParsedJson.ObjectElementCount | src/json/json_parser.c:134-163 | the loop counts the keys of the walk |
| JsonNavigator.ParsedJson.ObjectNthKey | src/json/json_parser.c:165-199 | the loop returns the key at the index, or that there is none |
| JsonNavigator.ParsedJson.ObjectValue | src/json/json_parser.c:215-250 | the loop returns the token behind the first key of the name |
| JsonNavigator.ParsedJson.MatchToken | src/parser_impl.c:185-204 | the token has the kind and exactly the text |
| JsonNavigator.ParsedJson.MatchKeyValue | src/parser_impl.c:225-251 | the value of a two-member object with the expected type name, and its kind |
| JsonNavigator.ParsedJson.MatchOptionalKeyValue | src/parser_impl.c:254-291 | null, or the value inside an optional |
| JsonNavigator.MatchQueryIsTree | src/parser_impl.c:225-251 | on the tokens of a tree the query hits the node that the tree names, and nothing else |
| JsonNavigator.OptionalQueryIsTree | src/parser_impl.c:254-291 | none exactly for a null value of an optional, a hit exactly when the inner value matches |
| JsonNavigator.MatchErrorIsTree | src/parser_impl.c:225-251 | the error of a failed match is that of the tree: no object of two members, a key that is missing, a type that is no string or another one, or a value of another kind |
| JsonNavigator.OptionalErrorIsTree | src/parser_impl.c:254-291 | the error of a failed optional match: that of the outer object, a literal that is not null, a value that is neither, or that of the inner object |
| JsonNavigator.CountArgumentItems | src/parser_impl.c:554-582 | the loops give the specified count of items of an array argument, or the refusal of the first check that fails, for any table size and whatever memory holds behind a full table |
| JsonNavigator.CountItemsIsTree | src/parser_impl.c:554-582 | for every argument that is a document the count is the number of items of the typed array in the tree, refused exactly when there is none, it is out of bounds, or the tree has more nodes than the table entries |
| JsonNavigator.Keywords | src/parser_impl.c:206-291 | the names that the program looks for, as text |
| JsonNavigator.ValueBehind | src/parser_impl.c:554-582 | a value found just behind the tokens of a full table counts as an array without items |
| Buffering.Buffer.Reset | deps/ledger-zxlib/src/buffering.c:40-45 | empty and in RAM |
| Buffering.Buffer.Append | deps/ledger-zxlib/src/buffering.c:47-74 | appends to RAM, or spills everything to flash, or stores nothing; the recursion ends |
| Buffering.RunHoldsAccepted | deps/ledger-zxlib/src/buffering.c:47-85 | after any resets and appends the buffer is the concatenation of the appends since the last reset that reported their full length |
| Buffering.RunFits | deps/ledger-zxlib/src/buffering.c:47-85 | over any run the contents fit the memory they are in |
| Buffering.InRamIff | deps/ledger-zxlib/src/buffering.c:47-85 | over any run the contents are in RAM exactly while everything appended since the last reset, stored or not, would fit there |
| Buffering.RefusedIff | deps/ledger-zxlib/src/buffering.c:47-74 | after any run an append is refused exactly when what was accepted and the new data do not fit in flash together |
| Metadata.MatchIsListed | src/tx_metadata.c:27-55 | a match under the wrapping 8-bit index is one of the first seven listed hashes |
| Metadata.EighthNeverMatches | src/tx_metadata.c:37-42 | an eighth hash never matches within 255 bytes |
| Metadata.ValidateSound | src/tx_metadata.c:27-55 | acceptance means that the script hash is listed |
| Metadata.ParseSound | src/tx_metadata.c:126-246 | accepted bytes are the rendering of well-formed metadata with at most seven hashes, among them the script's, with nothing left over |
| Metadata.ParseComplete | src/tx_metadata.c:126-246 | every such rendering of at most 255 bytes is accepted and read back |
| Metadata.ParseIff | src/tx_metadata.c:126-246 | both directions: accepted with this result exactly when rendered from it |
| MetadataAnswers.ArgumentForms | src/tx_metadata.c:174-232 | which arguments are well-formed and which bytes they are, kind by kind, with the numbers and type names of the format |
| MetadataAnswers.TextForm | src/tx_metadata.c:126-246 | the bytes in front of the arguments: hashes with their number, the name with its end, the number of arguments |
| MetadataAnswers.SlotIs | src/tx_metadata.c:37-51 | a listed hash agrees, differs at a first byte or runs out of the bytes, at the places of the 8-bit index |
| MetadataAnswers.ErrorsIff | src/tx_metadata.c:126-246 | too many hashes exactly for a first byte above 10, another script exactly when every slot differs, too many arguments exactly for a count above 10 behind an acceptable name; every other refusal is the metadata error |
| Template.PrintRenders | transaction_metadata/tree/index.js:78-162 | the printer's bytes are the rendering of the metadata that the template means, with the two script hashes |
| Template.StringForm | transaction_metadata/tree/index.js:78-162 | an argument of type String is printed with kind 4, title and index |
| Template.EnumForm | transaction_metadata/tree/index.js:78-162 | an argument of type UInt8 whose label names an enum is printed with the kind of the enum, title and index |
| Template.EnumKinds | transaction_metadata/tree/index.js:78-162 | labels select the kinds 5, 6 and 7, or none of their own |
| Template.ArrayForm | transaction_metadata/tree/index.js:78-162 | an argument whose type is in brackets is printed with kind 3, bounds 0 and 3, title, index, inner type and JSON kind 3 |
| Template.OptionalForm | transaction_metadata/tree/index.js:78-162 | an argument whose type ends in a question mark is printed with kind 2 and without the mark |
| Template.NormalForm | transaction_metadata/tree/index.js:78-162 | every other argument is printed with kind 1, title, index, its type as it is and JSON kind 3 |
| Template.PrintThenParse | transaction_metadata/tree/index.js:78-162 | with either script hash, printed bytes are parsed back exactly when all strings have at most 100 bytes and there are at most ten arguments, and refused otherwise |
| Template.LongNameIsRefused | transaction_metadata/tree/index.js:146-162 | a name of 101 characters is printed but refused |
| MerkleTree.ProcessMerkleTreeLevel | transaction_metadata/tree/index.js:186-200 | the node whose hash is over what its children stand for, in order |
| MerkleTree.SplitTo7Tuples | transaction_metadata/tree/index.js:203-210 | consecutive groups of seven, the last possibly shorter |
| MerkleTree.Build | transaction_metadata/tree/index.js:183-217 | the root over all metadata filled up with empty texts, level by level |
| MerkleTree.BuiltTree | transaction_metadata/tree/index.js:183-217 | the built tree is complete with right hashes, and its leaves from left to right are the metadata and the filling |
| ProofState.TxMetadata.Clear | src/tx_metadata.c:57-59 | nothing stored, level 0 |
| ProofState.TxMetadata.Store | src/tx_metadata.c:61-85 | stores at most 255 bytes with their hash at level 1, only when no proof is in progress; otherwise the error of the check that fails, and the state it leaves |
| ProofState.TxMetadata.ValidateLevel | src/tx_metadata.c:87-124 | goes up a level with the hash of the list exactly when the running hash stands in it at a multiple of 32, at levels 1 to 4; otherwise the error, and the proof as it was |
| ProofState.TxMetadata.ValidateHash | src/tx_metadata.c:27-55 | the loops over hashes and bytes, with the 8-bit index, give the specified answer |
| ProofState.TxMetadata.ParseInternal | src/tx_metadata.c:126-246 | the loops over the stored buffer give the specified parse or error |
| ProofState.TxMetadata.ParseTxMetadata | src/tx_metadata.c:248-261 | the parser runs only behind level 5 and the known root |
| Chunks.Device.ExtractPathAndOptions | src/common/app_helper.c:33-52 | path taken over when it is there, options only when the path is known, and the error |
| Chunks.Device.ProcessChunk | src/common/app_helper.c:54-119 | the whole new state and the answer for every chunk, errors and resets included |
| ChunkAnswers.KnownPathIff | src/common/app_helper.c:41-47 | the paths that are signed for are those below 44'/539' and 44'/1', least significant byte first |
| ChunkAnswers.AnswersIff | src/common/app_helper.c:54-119 | for each of the eight answers, exactly the chunks that get it, with the numbers of the protocol |
| ChunkAnswers.EffectsAre | src/common/app_helper.c:54-119 | what every chunk leaves of path, options, buffer and proof |
| MerkleSoundness.StepBacks | src/common/app_helper.c:86-108 | every chunk keeps a backing of the proof, drops it or adds its own text, and every failed proof chunk leaves no proof |
| MerkleSoundness.RunBacks | src/common/app_helper.c:54-119 | at every moment of every run a proof of level k is backed by k texts sent in that run in order, each listing the digest of the one before |
| MerkleSoundness.LeafOrCollision | src/tx_metadata.c:87-124 | a chain up to the root of a tree starts at one of its leaves, or two texts collide |
| MerkleSoundness.AcceptedIsKnown | src/tx_metadata.c:248-261 | over every run, accepted metadata is one of the texts the tree was built from, or the run and the tree exhibit a collision |
| Host.BuildIndex | transaction_metadata/tree/index.js:219-237 | the nested loops build the index of the leaves in order |
| Host.IndexNamesLast | transaction_metadata/tree/index.js:230-233 | the index knows exactly the prefixes that leaves list, and names the last leaf that does |
| Host.CutEmptyBranches | transaction_metadata/tree/index.js:239-247 | exactly the branches with the given hash lose what is below them |
| Host.EmptyBranchText | transaction_metadata/tree/index.js:239-247 | what stands in the place of a cut branch |
| Host.PrepareBasicChunks | js/src/signTransaction.js:24-42 | the path, then the message in slices of 250 bytes |
| Host.SignGetChunks | js/src/signTransaction.js:48-90 | the chunks for each of the three uses, or an exception in a cut branch; that an unknown script is sent as nothing is MerkleCompleteness.UnknownScriptSendsNothing |
| MerkleCompleteness.PiecesAreMessage | js/src/signTransaction.js:30-39 | the slices together are the message, all of 250 bytes but the last and none empty |
| MerkleCompleteness.BasicRun | src/common/app_helper.c:62-73 | from any state, path and message are taken, all of it exactly when the message fits in flash |
| MerkleCompleteness.ProofRun | src/common/app_helper.c:86-108 | five linked texts finish a proof exactly when the metadata has at most 255 bytes |
| MerkleCompleteness.ProofTextsLinked | js/src/signTransaction.js:77-81 | the metadata and the four hash lists of a place are linked up to the root, and the metadata is that leaf |
| MerkleCompleteness.ExchangeGoesWell | src/common/app_helper.c:54-119 | the host's chunks never fail from any state, exactly when message and metadata fit, and leave the message, the metadata and the root hash |
| MerkleCompleteness.SameHashSameLeaves | transaction_metadata/tree/index.js:186-217 | trees with the same hash have the same leaves, or two texts collide |
| MerkleCompleteness.BranchIsKept | transaction_metadata/tree/index.js:239-247 | the branch of a leaf that is not empty is not cut, unless it collides with the empty tree |
| MerkleCompleteness.EveryListedScriptIsServed | js/src/signTransaction.js:48-90 | with distinct prefixes, every listed script and fitting message is served: no throw, level 5, root hash, message in the buffer, metadata accepted - or a collision |
| MerkleCompleteness.UnknownScriptSendsNothing | js/src/signTransaction.js:66-73 | the host sends nothing exactly when no known text lists the prefix of the script, and then no state of any device changes |
| MerkleCompleteness.PlainExchange | js/src/signTransaction.js:52-62 | without metadata the message arrives exactly when it is not empty |
| TxParse.ShownIff | src/common/tx.c:76-119 | a review is shown exactly when the buffer is a transaction, its metadata comes from a finished proof of the known root or is dispensed with in expert mode, and the review can be shown to its end |
| TxParse.ShownMetadataIsPublished | src/common/tx.c:76-119 | over every run, what is shown with metadata is the transaction in the buffer, with metadata that lists its script's hash, has as many arguments and was published, and with a payer of one of the chains - or there is a collision |
| TxParse.PublishedScriptIsShown | src/common/tx.c:76-119 | every transaction with a published script, sent by the host to a device in any state, is shown with its fields and its metadata exactly when metadata and arguments fit, there are at most 126 screens and all of them print - or there is a collision |
| Rlp.DecodeIff | src/rlp.c:26-102 | decoding succeeds exactly on encodings, canonical or not, that end within the bounds, and always consumes at least a byte |
| Rlp.Context.RlpDecode | src/rlp.c:26-102 | the branches and the 16-bit length loop give the specified item or error |
| FlowErrors.DecodeErrorsIff | src/rlp.c:26-102 | a length is refused exactly when it takes more than two bytes that are all there; the bytes end too early exactly when no item stands there otherwise |
| Rlp.Context.CheckAndAdvance | src/parser_common.h:35-42 | moves on only within the bounds |
| Rlp.ReadUInt64 | src/rlp.c:120-147 | the big-endian value of up to eight bytes, shifted together in 64 bits |
| Rlp.BigEndianRoundTrip | src/rlp.c:139-145 | the shortest big-endian form reads back as the number |
| FlowTx.ParseSound | src/parser_impl.c:341-547 | whatever is accepted is a document: nine fields, arguments and authorizers tile their lists, every value is what is written there, and every recorded span is the payload of its item at the item's place |
| FlowTx.ParseWritten | src/parser_impl.c:341-547 | every document is accepted and read back |
| FlowTx.ParseIff | src/parser_impl.c:341-547 | accepted exactly when it is a document and the hash succeeds |
| FlowErrors.NextErrorsIff | src/parser_impl.c:341-547 | an item is refused for its kind exactly when one of the other kind stands there |
| FlowErrors.ItemErrorsIff | src/parser_impl.c:359-383 | a list is refused for the number of its items exactly when it goes on behind as many as there is room for |
| FlowErrors.NumberErrorsIff | src/rlp.c:120-147 | a number is refused exactly when it takes more than eight bytes |
| FlowErrors.ScriptErrorsIff | src/parser_impl.c:341-357 | a script that can be read is refused exactly when the hash engine fails |
| FlowErrors.LeftoverIsBufferEnd | src/parser_impl.c:508-547 | bytes behind the root list are refused |
| FlowErrors.EmptyIff | src/parser_tx.c:44-47 | a buffer is refused as empty exactly when its length is a multiple of 65536, and otherwise with one of five codes |
| FlowParser.ReadStrings | src/parser_impl.c:359-383 | the loop over arguments, and that over authorizers, reads all items up to the limit |
| FlowParser.Read | src/parser_impl.c:508-547 | contexts advanced step by step give the specified result, with the error of the first check that fails |
| FlowParser.ParserParse | src/parser_tx.c:44-47 | the buffer with its length cut to 16 bits |
| FlowEncoding.RoundTrip | src/parser_impl.c:341-547 | every transaction of at most ten arguments, sixteen authorizers, 64-bit numbers and less than 64 KiB, encoded as in the Yellow Paper, is read back field by field, the script as its hash |
| Polymod.StepInjective | deps/ledger-zxlib/src/segwit_addr.c:27-31 | different 30-bit states have different successors |
| Polymod.StepAdd | deps/ledger-zxlib/src/segwit_addr.c:27-31 | what is added below the top five bits comes out shifted |
| Polymod.FeedbackIsGenerator | deps/ledger-zxlib/src/segwit_addr.c:27-31 | what the top five bits feed back is their product in GF(32), built on a^5 = a^3 + 1, with the coefficients 29, 22, 20, 21, 29, 18 of the generator of BIP-173 |
| Checksum.ChecksumIff | deps/ledger-zxlib/src/segwit_addr.c:74-80 | six symbols end in the constant if and only if they are the checksum that the encoder appends |
| Checksum.BurstDetected | deps/ledger-zxlib/src/segwit_addr.c:27-31 | sequences that differ only within six neighbouring symbols end in different states |
| Bech32.Bech32Encode | deps/ledger-zxlib/src/segwit_addr.c:48-82 | the loops give the specified text, or nothing; what that text is, is Bech32Rules.EncodedIs, and Bech32Vectors has published ones |
| Bech32.Bech32Decode | deps/ledger-zxlib/src/segwit_addr.c:84-145 | the loops give the specified parts, or nothing; which texts these are is Bech32Rules.DecodedIff |
| Bech32.DecodeIff | deps/ledger-zxlib/src/segwit_addr.c:48-145 | a text decodes to a result exactly when, written in one case, it is the encoding of the result and the human-readable part is not empty |
| Bech32Rules.EncodableIff | deps/ledger-zxlib/src/segwit_addr.c:48-82 | what can be encoded: printable characters without capitals, values below 32, at most 90 characters in all |
| Bech32Rules.DecodedIff | deps/ledger-zxlib/src/segwit_addr.c:84-145 | what is decoded is exactly the valid text of BIP-173: a separator behind at least one printable character, at least six characters of the alphabet, one case, 90 characters, and a checksum that ends in the constant |
| Bech32Vectors.Alphabet | deps/ledger-zxlib/src/segwit_addr.c:39 | the 32 characters of the alphabet, in order |
| Bech32Vectors.ShortestBech32 | deps/ledger-zxlib/src/segwit_addr.c:48-82 | the part a without data is a12uel5l |
| Bech32Vectors.ShortestBech32m | deps/ledger-zxlib/src/segwit_addr.c:48-82 | the part a without data is a1lqfn3a in Bech32m |
| Bech32.SubstitutionDetected | deps/ledger-zxlib/src/segwit_addr.c:84-145 | changing characters within six neighbouring places of the data part never gives a text accepted under the same encoding |
| BitString.ConvertBits | deps/ledger-zxlib/src/segwit_addr.c:147-167 | the loops over a 32-bit accumulator regroup the string of bits |
| BitString.ConvertIff | deps/ledger-zxlib/src/segwit_addr.c:147-167 | regrouping with padding and back without are inverse on exactly what the latter accepts |
| Segwit.SegwitAddrEncode | deps/ledger-zxlib/src/segwit_addr.c:169-181 | the specified address, the version stored in a byte |
| Segwit.SegwitAddrDecode | deps/ledger-zxlib/src/segwit_addr.c:183-200 | the specified version and program, or nothing |
| Segwit.SegwitIff | deps/ledger-zxlib/src/segwit_addr.c:169-200 | an address decodes to a version and program exactly when it is their encoding, written in one case, with a human-readable part that is not empty |
| Segwit.SegwitRoundTrip | deps/ledger-zxlib/src/segwit_addr.c:169-200 | what decoding makes of every encoded address: itself from version 0 up, nothing without a human-readable part, and for a negative version either version 0 or nothing |
| Bech32Rules.WitnessEncodableIff | deps/ledger-zxlib/src/segwit_addr.c:169-181 | which versions and programs can be encoded, with the lengths of BIP-141 |
| Bech32Rules.WitnessDecodedIff | deps/ledger-zxlib/src/segwit_addr.c:183-200 | a decoded address is a valid text of the version and the program, with the constant 1 for version 0 and 0x2bc830a3 for the others |
| SegwitVectors.FiveBytes | deps/ledger-zxlib/src/segwit_addr.c:147-167 | every five bytes are eight symbols, given by division, whatever follows |
| SegwitVectors.WitnessAddress | deps/ledger-zxlib/src/segwit_addr.c:169-181 | the program 751e76e8199196d454941c45d1b3a323f1433bd6 of version 0 under bc is bc1qw508d6qejxtdg4y5r3zarvary0c5xw7kv8f3t4 |
| Segwit.NegativeVersionIsLost | deps/ledger-zxlib/src/segwit_addr.c:169-181 | an address encoded with version -256 comes back with version 0 |
| Segwit.EmptyHumanPartIsLost | deps/ledger-zxlib/src/segwit_addr.c:84-145 | an address encoded without a human-readable part does not come back |
| Bignum.ByteDoubles | deps/ledger-zxlib/src/bignum.c:125-143 | adjusting and shifting two packed digits doubles them, and the bit that goes out is the hundred |
| Bignum.OutIsLost | deps/ledger-zxlib/src/bignum.c:137-143 | the bit that goes out is what doubling loses from the byte |
| Bignum.FixDigits | deps/ledger-zxlib/src/bignum.c:122-130 | the adjustment of every digit in place |
| Bignum.ShiftUp | deps/ledger-zxlib/src/bignum.c:137-143 | the carry loop over bytes stored from the lowest |
| Bignum.ShiftDown | deps/ledger-zxlib/src/bignum.c:73-79 | the carry loop over bytes stored from the highest |
| Bignum.BigEndianToBcd | deps/ledger-zxlib/src/bignum.c:117-145 | all bits of the input taken in, in place |
| Bignum.LittleEndianToBcd | deps/ledger-zxlib/src/bignum.c:53-81 | the same with both byte orders turned round |
| Bignum.BigEndianIsExact | deps/ledger-zxlib/src/bignum.c:117-145 | every digit is decimal and the value is the number modulo a hundred to the number of bytes |
| Bignum.LittleEndianIsExact | deps/ledger-zxlib/src/bignum.c:53-81 | the same for the other byte order |
| Bignum.LittleEndianBcdPrint | deps/ledger-zxlib/src/bignum.c:20-51 | the output buffer is the digits from the first byte on without leading zeros, the error text or nothing, followed by zeros |
| Bignum.BigEndianBcdPrint | deps/ledger-zxlib/src/bignum.c:83-115 | the same with the digits read from the last byte on |
| Bignum.PrintsTheNumber | deps/ledger-zxlib/src/bignum.c:20-145 | a number that fits is printed in the usual decimal notation, in both byte orders |
| Bignum.PrintedWithoutZeros | deps/ledger-zxlib/src/bignum.c:20-51 | on any bytes, what is printed are all digits but the zeros in front |
| Bignum.HexChars | deps/ledger-zxlib/src/bignum.c:20-51 | the characters of the digits, capital letters above nine |
| Bignum.OutputIs | deps/ledger-zxlib/src/bignum.c:20-51 | printing succeeds exactly in a buffer of at least four bytes and two for each byte, and leaves nothing or ERR otherwise |
| Address.ColumnsDiffer | src/parser_tx.c:76-84 | the columns of the parity check matrix are not zero and pairwise different |
| Address.ValidateChainAddress | src/parser_tx.c:86-102 | the loop sums the columns that the bits select |
| Address.IsValidIff | src/parser_tx.c:86-102 | the check is the same syndrome as the chain's word, and another word |
| Address.ChainsAreDisjoint | src/parser_tx.c:72-74 | no 64-bit address is valid for two chains |
| Address.FlipsAreDetected | src/parser_tx.c:86-102 | flipping exactly one or two bits of an address valid on a chain never gives another one valid on that chain |
| Address.ChainIDFromPayer | src/parser_tx.c:104-132 | the first chain that takes the payer, shifted together in 64 bits, or the error; which payers those are is AddressCode.GeneratedIsAccepted |
| Address.ChainOfIff | src/parser_tx.c:104-132 | the answer is a chain exactly when the payer is valid for it, so the order of the tests does not matter |
| AddressCode.GeneratedIsAccepted | src/parser_tx.c:69-132 | the address that the generator matrix of the Flow SDK gives for an index on a chain is valid on that chain and on no other, unless no row is selected |
| AddressCode.FirstAddressOnMainnet | src/parser_tx.c:104-132 | payer e467b9dd11fa00df is of the main chain |
| AddressCode.AnotherAddressOnMainnet | src/parser_tx.c:104-132 | payer f19c161bc24cf4b4 is of the main chain |
| AddressCode.FirstAddressOnTestnet | src/parser_tx.c:104-132 | payer 8c5303eaa26202d6 is of the test chain |
| AddressCode.FirstAddressOnEmulator | src/parser_tx.c:104-132 | payer f8d6e0586b0a20c7 is of the emulator |
| AddressCode.ChainWordsAreRefused | src/parser_tx.c:86-102 | the words of the three chains are no addresses of any chain |
| Screens.Display.Hit | src/parser_tx.c:647-649 | what one screen does to the index: selects at zero, counts down otherwise, stays at the least value |
| Screens.Display.GetItemInternal | src/parser_tx.c:620-954 | the walk selects the screen at the index, or ends with its error; in counting mode it counts down by the number of screens, not below -128 |
| Screens.GetNumItems | src/parser_tx.c:956-980 | the number of screens up to 126, or the error |
| Screens.GetItem | src/parser_tx.c:982-1000 | the screen at an index, out of range above 127 |
| Screens.ScreensAreReview | src/parser_tx.c:652-951 | the walk goes through the whole review exactly when metadata matches the arguments and all arrays count, or in expert mode |
| Screens.CountAndSelect | src/parser_tx.c:620-1000 | counting succeeds exactly on showable reviews of at most 126 screens, and then every index below the count selects its screen and every other is out of range |
| ScreenOrder.ReviewIsSorted | src/parser_tx.c:620-954 | the screens of a review are exactly those that belong to the transaction, its metadata and the settings, each once, in the order of their ranks |
| ScreenOrder.SortedIsUnique | src/parser_tx.c:620-954 | there is one list with these screens in this order |
| ScreenOrder.EndIs | src/parser_tx.c:652-951 | why a review ends early: no expert mode, another number of arguments, or the error of the first argument that gives no screens |
| ScreenOrder.ArrayScreensAreItems | src/parser_tx.c:726-744 | an array argument has a screen for each item of the JSON tree it spells, when their number is allowed and the tree fits the table, and none otherwise |
| Validation.CountAll | src/parser_tx.c:726-733 | the counts of all array arguments of the metadata, each from the tokens of its argument |
| Validation.ParserValidate | src/parser_tx.c:49-65 | the count and the loop over all screens give the first error, or none |
| Validation.ValidatedIff | src/parser_tx.c:49-65 | the check passes exactly when metadata and arguments fit or expert mode is on, there are at most 126 screens, and every screen of the review prints |
| Validation.ReloadedReview | src/apdu_handler.c:117-148 | after the check the account slot is read again: the review is counted exactly when the new warnings leave it at most 126 screens |
| Calendar.YearTable | deps/ledger-zxlib/src/timeutils.c:28-74 | every table entry is the sum of the lengths of the years before it |
| Calendar.ExtractTime | deps/ledger-zxlib/src/timeutils.c:79-129 | succeeds exactly below day 230103, with fields in calendar range that recompose to the second and whose day is that of the closed formula |
| Calendar.SecondsInjective | deps/ledger-zxlib/src/timeutils.c:79-129 | a second has one date only |
| Calendar.MonthLaw | deps/ledger-zxlib/src/timeutils.c:27 | the days before each month are (153 m + 2) / 5 with months counted from March |
| Calendar.DayIsCivil | deps/ledger-zxlib/src/timeutils.c:27-74 | counting days month by month and year by year gives the day of the closed formula for the Gregorian calendar |
| Paging.PageStringExt | deps/ledger-zxlib/include/zxformat.h:375-402 | the page of the value in the zeroed buffer, and the 8-bit count |
| Paging.ArrayToHexstr | deps/ledger-zxlib/include/zxformat.h:282-296 | the bytes in hexadecimal when they fit with their end, nothing otherwise |
| Paging.HexDigits | deps/ledger-zxlib/include/zxformat.h:282-296 | the characters of the digits, small letters above nine |
| Paging.PageStringHex | deps/ledger-zxlib/include/zxformat.h:409-439 | the page of the value in hexadecimal, and the 8-bit count |
| Paging.PagesCoverIff | deps/ledger-zxlib/include/zxformat.h:375-402 | all counted pages together are the value exactly when there are at most 255 |
| Paging.CountIsCut | deps/ledger-zxlib/include/zxformat.h:375-402 | the page count is the number of pages modulo 256 |
| Paging.HexPagesCoverIff | deps/ledger-zxlib/include/zxformat.h:409-439 | all counted pages together are the value in hexadecimal exactly when there are at most 255 |
| Paging.UnhexHex | deps/ledger-zxlib/include/zxformat.h:282-296 | hexadecimal text read digit by digit is the bytes again |
| ReviewIndex.GetPairNumber | deps/ledger-zxlib/app/ui/view_nbgl.c:185-195 | the sum of the page counts in 8 bits |
| ReviewIndex.ReviewUpdateData | deps/ledger-zxlib/app/ui/view_nbgl.c:197-242 | the item and page that the search finds for an index, with its 8-bit sums |
| ReviewIndex.CoversIff | deps/ledger-zxlib/app/ui/view_nbgl.c:185-242 | the indices below the pair number visit every page of every item once and in order, exactly when all pages fit in 8 bits and empty items come last |
| ReviewIndex.LocatedIff | deps/ledger-zxlib/app/ui/view_nbgl.c:217-242 | an index shows something exactly when it is below the pair number |
| ReviewIndex.LocatedIs | deps/ledger-zxlib/app/ui/view_nbgl.c:197-242 | what any index finds, with all sums in 8 bits: the first item at which the search stops, unless one without pages is before it |
| FullReview.WholeIs | deps/ledger-zxlib/include/zxformat.h:282-296 | what a whole value is shown as: itself, or twice as many hexadecimal digits that read back |
| FullReview.ReviewShowsEverythingIff | deps/ledger-zxlib/app/ui/view_nbgl.c:185-242 | going through all indices shows every value whole, as text or hexadecimal, one behind the other, exactly when all pages fit in 8 bits and empty values come last |

## Left out

- SHA-256 and SHA-3: the hash is an arbitrary function to 32 bytes, and whether the hardware call succeeds is an input of each chunk and of the transaction parser.
- Key derivation, signatures, account slots, messages, menus, drawing, logging and the transport below a chunk.
- JsmnParser.Parser.Parse: texts above 32767 bytes and tables above 32767 entries, where the 16-bit offsets of the token type would wrap.
- Navigation on tables of texts that are not JSON: the tokenizer accepts some, and the counts mean nothing there.
- Buffering.Buffer.Append: a flash smaller than the RAM; both builds of the app have a larger one.
- Template.PrintRenders: the optional-array branch of the printer, label and enumeration tables, and the pairing of the two manifest files.
- MerkleTree.Build: the concrete metadata, the concrete root constant and the writing of the output files; every tree the script builds is covered.
- Host.SignGetChunks: the conversion of a path from text to its 22 bytes.
- TxParse.PublishedScriptIsShown: whether a screen with a value prints is an input, as is the state of the account slot; the texts of the screens are not modelled beyond paging, chain and counts.
- ProofState.TxMetadata.Store: what a failing hash engine leaves in the running hash; the device clears the proof then.
- Bech32.SubstitutionDetected: errors spread over more than six places, of which BIP-173 promises to detect up to four by an exhaustive search.
- ReviewIndex.ReviewUpdateData: errors of the item functions and the text " (i/n)" added to titles.
- Screens.GetItem: the printing of each screen, and null pointers passed by a caller.
