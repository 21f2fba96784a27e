/**
 * The last check before a review (parser_validate in src/parser_tx.c): all screens are counted, and then each is
 * printed once. Which screens there are follows from the transaction, its metadata and the settings; what
 * printing one of the values says is a parameter, except for the chain, which follows from the payer.
 */
module Validation {
  import opened Bytes
  import opened Errors
  import opened Metadata
  import opened JsonNavigator
  import opened Screens
  import Address
  import JsmnParser

  /** What the device knows besides the transaction, and what printing a screen says. */
  datatype Settings = Settings(expert: bool, showAddress: ShowAddress, addressUsed: bool, prints: Screen -> ParserError)

  /** What the program counts for each argument of the metadata. */
  function CountsOf(z: Limits, metadata: Option<Meta>, args: seq<bytes>): (r: seq<ItemCount>)
    ensures metadata.Some? ==> |r| == |metadata.value.args|
  {
    if metadata.None? then []
    else
      var known := metadata.value.args;
      seq(|known|, i requires 0 <= i < |known| => CountOf(z, known[i], args))
  }

  function CountOf(z: Limits, a: Metadata.Argument, args: seq<bytes>): ItemCount {
    if a.kind == Metadata.ARRAY then ArgumentItems(z, args, a.index, a.min, a.max) else Counted(0)
  }

  /** What the screens of a transaction depend on. */
  function ConfigOf(z: Limits, d: Settings, metadata: Option<Meta>, args: seq<bytes>, authorizers: nat): (c: Config)
    ensures IsConfig(c)
  {
    Config(metadata, |args|, CountsOf(z, metadata, args), authorizers, d.expert, d.showAddress, d.addressUsed)
  }

  /** Printing a screen: fixed texts do not fail, the chain is that of the payer. */
  function PrintOutcome(d: Settings, payer: bytes, s: Screen): ParserError {
    match s
    case ChainID => if Address.ChainOf(payer).Found? then ParserError.Ok else Address.ChainOf(payer).err
    case Argument(_) => d.prints(s)
    case ArrayItem(_, _) => d.prints(s)
    case ArbitraryArgument(_) => d.prints(s)
    case RefBlock => d.prints(s)
    case GasLimit => d.prints(s)
    case PropKeyAddr => d.prints(s)
    case PropKeyId => d.prints(s)
    case PropKeySeqNum => d.prints(s)
    case Payer => d.prints(s)
    case Authorizer(_) => d.prints(s)
    case _ => ParserError.Ok
  }

  /** The first screen that does not print decides. */
  function FirstFailure(d: Settings, payer: bytes, screens: seq<Screen>): ParserError {
    if screens == [] then ParserError.Ok
    else if PrintOutcome(d, payer, screens[0]) != ParserError.Ok then PrintOutcome(d, payer, screens[0])
    else FirstFailure(d, payer, screens[1..])
  }

  function Validated(c: Config, d: Settings, payer: bytes): ParserError
    requires IsConfig(c)
  {
    match ItemCountOf(AllScreens(c))
    case Failed(err) => err
    case Count(_) => FirstFailure(d, payer, AllScreens(c).screens)
  }

  // ---------------------------------------------------------------- what it means

  /** A review that can be shown to its end: few enough screens, and each of them prints. */
  predicate Presentable(c: Config, d: Settings, payer: bytes)
    requires IsConfig(c)
  {
    && Showable(c) && |Review(c)| <= 126
    && forall i :: 0 <= i < |Review(c)| ==> PrintOutcome(d, payer, Review(c)[i]) == ParserError.Ok
  }

  lemma {:induction false} AllPrint(d: Settings, payer: bytes, screens: seq<Screen>)
    ensures FirstFailure(d, payer, screens) == ParserError.Ok
       <==> forall i :: 0 <= i < |screens| ==> PrintOutcome(d, payer, screens[i]) == ParserError.Ok
    decreases |screens|
  {
    hide PrintOutcome;
    if screens != [] {
      AllPrint(d, payer, screens[1..]);
      assert screens == [screens[0]] + screens[1..];
    }
  }

  lemma CountsAreNotEnds(z: Limits, d: Settings, metadata: Option<Meta>, args: seq<bytes>, authorizers: nat)
    ensures NoCountIsEnd(ConfigOf(z, d, metadata, args, authorizers))
  {
    hide ArgumentItems;
    var counts := CountsOf(z, metadata, args);
    forall k | 0 <= k < |counts| && counts[k].Refused? ensures counts[k].err != DisplayIdxOutOfRange {
      var a := metadata.value.args[k];
      RefusalIsNotEnd(z, args, a.index, a.min, a.max);
    }
  }

  /** The check passes exactly for reviews that can be shown to their end. */
  lemma ValidatedIff(z: Limits, d: Settings, metadata: Option<Meta>, args: seq<bytes>, authorizers: nat, payer: bytes)
    ensures var c := ConfigOf(z, d, metadata, args, authorizers);
      Validated(c, d, payer) == ParserError.Ok <==> Presentable(c, d, payer)
  {
    hide AllScreens, Review, Showable, PrintOutcome, FirstFailure;
    var c := ConfigOf(z, d, metadata, args, authorizers);
    CountsAreNotEnds(z, d, metadata, args, authorizers);
    ScreensAreReview(c);
    AllPrint(d, payer, AllScreens(c).screens);
  }

  /**
   * Behind the check the program reads the account slot again, which changes the warnings at the end of the
   * review and nothing else. So a transaction that has passed the check is still counted when the review
   * starts, exactly if the new warnings leave it at most 126 screens.
   */
  lemma ReloadedReview(z: Limits, d: Settings, d': Settings, metadata: Option<Meta>, args: seq<bytes>,
                       authorizers: nat, payer: bytes)
    requires d.expert == d'.expert && Validated(ConfigOf(z, d, metadata, args, authorizers), d, payer) == ParserError.Ok
    ensures var c, c' := ConfigOf(z, d, metadata, args, authorizers), ConfigOf(z, d', metadata, args, authorizers);
      ItemCountOf(AllScreens(c')).Count? <==> |Review(c)| - |Warnings(c)| + |Warnings(c')| <= 126
  {
    hide AllScreens, CountsOf, PrintOutcome, Validated, HasScreens, Warnings;
    var c, c' := ConfigOf(z, d, metadata, args, authorizers), ConfigOf(z, d', metadata, args, authorizers);
    ValidatedIff(z, d, metadata, args, authorizers, payer);
    CountsAreNotEnds(z, d', metadata, args, authorizers);
    CountAndSelect(c', 0);
    SameButWarnings(c, c');
  }

  /** Two configurations that differ in the account slot alone. */
  lemma SameButWarnings(c: Config, c': Config)
    requires IsConfig(c) && c' == c.(showAddress := c'.showAddress, addressUsed := c'.addressUsed)
    ensures Showable(c) == Showable(c') && |Review(c)| - |Warnings(c)| == |Review(c')| - |Warnings(c')|
  {
    hide Warnings;
    if c.metadata.Some? {
      forall i | 0 <= i < |c.counts| ensures HasScreens(c, i) == HasScreens(c', i) {}
      SameArguments(c, c', 0);
    }
  }

  lemma {:induction false} SameArguments(c: Config, c': Config, i: nat)
    requires IsConfig(c) && c' == c.(showAddress := c'.showAddress, addressUsed := c'.addressUsed)
    requires c.metadata.Some? && i <= |c.counts|
    ensures ArgumentScreens(c, i) == ArgumentScreens(c', i)
    decreases |c.counts| - i
  {
    if i < |c.counts| { SameArguments(c, c', i + 1); }
  }

  // ---------------------------------------------------------------- the program

  /** Counts the items of all array arguments, as the walk does when it gets to them. */
  method CountAll(z: Limits, metadata: Option<Meta>, args: seq<bytes>) returns (r: seq<ItemCount>)
    requires z.tokens <= JsmnParser.MAX_OFFSET && forall i :: 0 <= i < |args| ==> |args[i]| <= JsmnParser.MAX_OFFSET
    ensures r == CountsOf(z, metadata, args)
  {
    r := [];
    if metadata.None? { return; }
    for i := 0 to |metadata.value.args|
      invariant |r| == i && forall k :: 0 <= k < i ==> r[k] == CountOf(z, metadata.value.args[k], args)
    {
      var a := metadata.value.args[i];
      var n := Counted(0);
      if a.kind == Metadata.ARRAY { n := CountArgumentItems(z, args, a.index, a.min, a.max); }
      r := r + [n];
    }
  }

  /** Prints the screen at an index, if there is one. */
  method PrintItem(c: Config, d: Settings, payer: bytes, idx: byte) returns (err: ParserError)
    requires IsConfig(c)
    ensures var w := AllScreens(c);
      err == if idx > INT8_MAX then DisplayIdxOutOfRange
             else if idx < |w.screens| then PrintOutcome(d, payer, w.screens[idx])
             else w.end
  {
    hide AllScreens, PrintOutcome;
    var item := GetItem(c, idx);
    match item
    case Shown(s) => err := PrintOutcome(d, payer, s);
    case Ended(e) => err := e;
  }

  method ParserValidate(c: Config, d: Settings, payer: bytes) returns (err: ParserError)
    requires IsConfig(c)
    ensures err == Validated(c, d, payer)
  {
    hide AllScreens, PrintOutcome;
    var numItems := GetNumItems(c);
    if numItems.Failed? { return numItems.err; }
    ghost var screens := AllScreens(c).screens;
    assert screens[0..] == screens;
    for idx := 0 to numItems.n
      invariant FirstFailure(d, payer, screens) == FirstFailure(d, payer, screens[idx..])
    {
      err := PrintItem(c, d, payer, idx);
      assert screens[idx..][0] == screens[idx] && screens[idx..][1..] == screens[idx + 1..];
      if err != ParserError.Ok { return; }
    }
    return ParserError.Ok;
  }
}
