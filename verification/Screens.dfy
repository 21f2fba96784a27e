/**
 * The screens of a transaction review (src/parser_tx.c). The program finds a screen, or counts them, by
 * counting an 8-bit index down while it walks; here that walk is proved to select from, and to count, one list.
 */
module Screens {
  import opened Bytes
  import opened Errors
  import opened Metadata
  import opened JsonNavigator

  const INT8_MIN: int := -128
  const INT8_MAX: int := 127
  const COUNTING: int := -1

  datatype Screen =
    | TypeName
    | ScriptHash
    | VerifyScriptHash
    | ChainID
    | Argument(i: nat)
    | ArrayItem(i: nat, j: nat)
    | ScriptArguments
    | ArbitraryArgument(i: nat)
    | RefBlock
    | GasLimit
    | PropKeyAddr
    | PropKeyId
    | PropKeySeqNum
    | Payer
    | Authorizer(i: nat)
    | YourPath
    | IncorrectAddress
    | HashMismatch
    | NoAddress
    | DifferentAddress
    | SlotError

  datatype ShowAddress = ShowNone | ShowError | Yes | YesHashMismatch | EmptySlot | HDPathsNotEqual

  /**
   * What the screens depend on; `counts` holds the number of items, or the refusal, for each argument that is an
   * array.
   */
  datatype Config = Config(metadata: Option<Meta>, argCount: nat, counts: seq<ItemCount>, authorizers: nat,
                           expert: bool, showAddress: ShowAddress, addressUsed: bool)

  predicate IsConfig(c: Config) { c.metadata.Some? ==> |c.counts| == |c.metadata.value.args| }

  // ---------------------------------------------------------------- the list of screens

  /** The screens that can be shown, and why there are no more behind them. */
  datatype Walk = Walk(screens: seq<Screen>, end: ParserError)

  function Before(list: seq<Screen>, w: Walk): Walk { Walk(list + w.screens, w.end) }

  function Warnings(c: Config): seq<Screen> {
    match c.showAddress
    case Yes => if c.addressUsed then [] else [IncorrectAddress]
    case YesHashMismatch => (if c.addressUsed then [] else [IncorrectAddress]) + [HashMismatch]
    case EmptySlot => [NoAddress]
    case HDPathsNotEqual => [DifferentAddress]
    case _ => [SlotError]
  }

  const FIELDS: seq<Screen> := [RefBlock, GasLimit, PropKeyAddr, PropKeyId, PropKeySeqNum, Payer]

  function Authorizers(n: nat): (r: seq<Screen>)
    ensures |r| == n
  {
    seq(n, i requires 0 <= i < n => Authorizer(i))
  }

  function Tail(c: Config): Walk {
    Walk(FIELDS + Authorizers(c.authorizers) + (if c.expert then [YourPath] else []) + Warnings(c),
        DisplayIdxOutOfRange)
  }

  function Items(i: nat, n: nat): (r: seq<Screen>)
    ensures |r| == n
  {
    seq(n, j requires 0 <= j < n => ArrayItem(i, j))
  }

  /** The screens of the known arguments from `i` on, and everything behind them. */
  function KnownArguments(c: Config, args: seq<Metadata.Argument>, i: nat): Walk
    requires i <= |args| == |c.counts|
    decreases |args| - i
  {
    if i == |args| then Tail(c)
    else if args[i].kind == Metadata.ARRAY then
      match c.counts[i]
      case Refused(err) => Walk([], err)
      case Counted(n) => Before(Items(i, n), KnownArguments(c, args, i + 1))
    else if NORMAL <= args[i].kind <= NODE_ROLE then Before([Screen.Argument(i)], KnownArguments(c, args, i + 1))
    else Walk([], MetadataError)
  }

  function Arbitrary(n: nat): (r: seq<Screen>)
    ensures |r| == n
  {
    seq(n, i requires 0 <= i < n => ArbitraryArgument(i))
  }

  function AllScreens(c: Config): Walk
    requires IsConfig(c)
  {
    if c.metadata.Some? then
      var args := c.metadata.value.args;
      Before([TypeName, ChainID],
             if |args| != c.argCount then Walk([], UnexpectedNumberItems) else KnownArguments(c, args, 0))
    else if !c.expert then Walk([], UnexpectedError)
    else Before([ScriptHash, VerifyScriptHash, ChainID] + ([ScriptArguments] + Arbitrary(c.argCount)), Tail(c))
  }

  // ---------------------------------------------------------------- counting down

  function Max(a: int, b: int): int { if a < b then b else a }

  /** The index after `k` screens; it does not go below the least value. */
  function After(start: int, k: nat): int { Max(INT8_MIN, start - k) }

  /** Passing a list, `k` screens into the walk: the selected screen, or the index counted down. */
  predicate Passed(start: int, k: nat, list: seq<Screen>, r: Option<Screen>, idx: int) {
    if start >= 0 && k <= start < k + |list| then r == Some(list[start - k])
    else r == None && idx == After(start, k + |list|)
  }

  datatype Outcome = Shown(screen: Screen) | Ended(err: ParserError)

  /** What a walk gives for a start index that is not negative. */
  function Select(w: Walk, i: nat): Outcome { if i < |w.screens| then Shown(w.screens[i]) else Ended(w.end) }

  class Display {
    var displayIdx: int

    predicate At(start: int, k: nat)
      reads this
    {
      COUNTING <= start <= INT8_MAX && (start >= 0 ==> k <= start) && displayIdx == After(start, k)
    }

    constructor (displayIdx: int)
      ensures this.displayIdx == displayIdx
    {
      this.displayIdx := displayIdx;
    }

    /** The counting part of every screen. */
    method Hit(condition: bool, s: Screen, ghost start: int, ghost k: nat) returns (r: Option<Screen>)
      requires At(start, k)
      modifies this
      ensures Passed(start, k, if condition then [s] else [], r, displayIdx)
      ensures r == None ==> At(start, k + if condition then 1 else 0)
    {
      if condition && displayIdx != INT8_MIN {
        var was := displayIdx;
        displayIdx := was - 1;
        if was == 0 { return Some(s); }
      }
      return None;
    }

    method FieldScreens(ghost start: int, ghost k: nat) returns (r: Option<Screen>)
      requires At(start, k)
      modifies this
      ensures Passed(start, k, FIELDS, r, displayIdx) && (r == None ==> At(start, k + |FIELDS|))
    {
      r := Hit(true, RefBlock, start, k);
      if r != None { return; }
      r := Hit(true, GasLimit, start, k + 1);
      if r != None { return; }
      r := Hit(true, PropKeyAddr, start, k + 2);
      if r != None { return; }
      r := Hit(true, PropKeyId, start, k + 3);
      if r != None { return; }
      r := Hit(true, PropKeySeqNum, start, k + 4);
      if r != None { return; }
      r := Hit(true, Payer, start, k + 5);
    }

    method AuthorizerScreens(n: nat, ghost start: int, ghost k: nat) returns (r: Option<Screen>)
      requires At(start, k)
      modifies this
      ensures Passed(start, k, Authorizers(n), r, displayIdx) && (r == None ==> At(start, k + n))
    {
      for i := 0 to n
        invariant At(start, k + i)
      {
        r := Hit(true, Authorizer(i), start, k + i);
        if r != None { return; }
      }
      return None;
    }

    method WarningScreens(c: Config, ghost start: int, ghost k: nat) returns (r: Option<Screen>)
      requires At(start, k)
      modifies this
      ensures Passed(start, k, Warnings(c), r, displayIdx) && (r == None ==> At(start, k + |Warnings(c)|))
    {
      match c.showAddress
      case EmptySlot => r := Hit(true, NoAddress, start, k);
      case HDPathsNotEqual => r := Hit(true, DifferentAddress, start, k);
      case ShowNone => r := Hit(true, SlotError, start, k);
      case ShowError => r := Hit(true, SlotError, start, k);
      case _ =>
        r := Hit(!c.addressUsed, IncorrectAddress, start, k);
        if r != None { return; }
        r := Hit(c.showAddress == YesHashMismatch, HashMismatch, start, k + if c.addressUsed then 0 else 1);
    }

    method TailScreens(c: Config, ghost start: int, ghost k: nat) returns (r: Option<Screen>)
      requires At(start, k)
      modifies this
      ensures Passed(start, k, Tail(c).screens, r, displayIdx)
    {
      ghost var path := if c.expert then [YourPath] else [];
      ghost var more := Authorizers(c.authorizers) + path + Warnings(c);
      assert Tail(c).screens == FIELDS + (Authorizers(c.authorizers) + (path + Warnings(c)));
      r := FieldScreens(start, k);
      if r != None { return; }
      r := AuthorizerScreens(c.authorizers, start, k + |FIELDS|);
      if r != None { return; }
      r := Hit(c.expert, YourPath, start, k + |FIELDS| + c.authorizers);
      if r != None { return; }
      r := WarningScreens(c, start, k + |FIELDS| + c.authorizers + |path|);
    }

    method ItemScreens(i: nat, n: nat, ghost start: int, ghost k: nat) returns (r: Option<Screen>)
      requires At(start, k)
      modifies this
      ensures Passed(start, k, Items(i, n), r, displayIdx) && (r == None ==> At(start, k + n))
    {
      for j := 0 to n
        invariant At(start, k + j)
      {
        r := Hit(true, ArrayItem(i, j), start, k + j);
        if r != None { return; }
      }
      return None;
    }

    method ArbitraryScreens(n: nat, ghost start: int, ghost k: nat) returns (r: Option<Screen>)
      requires At(start, k)
      modifies this
      ensures Passed(start, k, Arbitrary(n), r, displayIdx) && (r == None ==> At(start, k + n))
    {
      for i := 0 to n
        invariant At(start, k + i)
      {
        r := Hit(true, ArbitraryArgument(i), start, k + i);
        if r != None { return; }
      }
      return None;
    }

    /** One known argument: its screens, or why the walk ends here. */
    method ArgumentScreens(c: Config, args: seq<Metadata.Argument>, i: nat, ghost start: int, ghost k: nat)
      returns (r: Option<Screen>, err: Option<ParserError>, ghost list: seq<Screen>)
      requires At(start, k) && i < |args| == |c.counts|
      modifies this
      ensures Passed(start, k, list, r, displayIdx) && (r == None ==> At(start, k + |list|))
      ensures KnownArguments(c, args, i)
           == if err.Some? then Walk(list, err.value) else Before(list, KnownArguments(c, args, i + 1))
    {
      hide Tail;
      var kind := args[i].kind;
      r, err, list := None, None, [];
      if kind == Metadata.ARRAY {
        match c.counts[i] {
          case Refused(e) => err := Some(e);
          case Counted(n) =>
            list := Items(i, n);
            r := ItemScreens(i, n, start, k);
        }
      } else if NORMAL <= kind <= NODE_ROLE {
        list := [Screen.Argument(i)];
        r := Hit(true, Screen.Argument(i), start, k);
      } else {
        err := Some(MetadataError);
      }
    }

    /** The loop over the known arguments, and everything behind it. */
    method KnownArgumentScreens(c: Config, args: seq<Metadata.Argument>, ghost start: int, ghost k: nat)
      returns (r: Option<Screen>, err: ParserError)
      requires At(start, k) && |args| == |c.counts|
      modifies this
      ensures var w := KnownArguments(c, args, 0);
        Passed(start, k, w.screens, r, displayIdx) && (r == None ==> err == w.end)
    {
      r, err := None, DisplayIdxOutOfRange;
      assert Tail(c).end == err;
      hide Tail, KnownArguments, Passed, Before;
      ghost var w, seen := KnownArguments(c, args, 0), [];
      BeforeNothing(w);
      for i := 0 to |args|
        invariant At(start, k + |seen|) && w == Before(seen, KnownArguments(c, args, i)) && r == None
      {
        ghost var list;
        var failure;
        r, failure, list := ArgumentScreens(c, args, i, start, k + |seen|);
        BeforeBefore(seen, list, KnownArguments(c, args, i + 1));
        if r != None || failure.Some? {
          ghost var rest := if failure.Some? then [] else KnownArguments(c, args, i + 1).screens;
          PassedBehind(start, k, seen, list, rest, r, displayIdx);
          BeforeIs(seen + list, if failure.Some? then Walk([], failure.value) else KnownArguments(c, args, i + 1));
          return r, if failure.Some? then failure.value else err;
        }
        seen := seen + list;
      }
      LastArgument(c, args);
      r := TailScreens(c, start, k + |seen|);
      PassedBehind(start, k, seen, Tail(c).screens, [], r, displayIdx);
      assert w.screens == seen + Tail(c).screens + [];
    }

    /** The walk with metadata. */
    method KnownScreens(c: Config, ghost start: int) returns (r: Option<Screen>, err: ParserError)
      requires IsConfig(c) && c.metadata.Some? && At(start, 0)
      modifies this
      ensures Passed(start, 0, AllScreens(c).screens, r, displayIdx) && (r == None ==> err == AllScreens(c).end)
    {
      hide KnownArguments;
      var args := c.metadata.value.args;
      r, err := None, UnexpectedNumberItems;
      r := Hit(true, TypeName, start, 0);
      if r != None { return; }
      r := Hit(true, ChainID, start, 1);
      if r != None { return; }
      if |args| != c.argCount { return; }
      r, err := KnownArgumentScreens(c, args, start, 2);
    }

    /** The walk without metadata, in expert mode only. */
    method ExpertScreens(c: Config, ghost start: int) returns (r: Option<Screen>, err: ParserError)
      requires IsConfig(c) && c.metadata.None? && At(start, 0)
      modifies this
      ensures Passed(start, 0, AllScreens(c).screens, r, displayIdx) && (r == None ==> err == AllScreens(c).end)
    {
      r, err := None, UnexpectedError;
      if !c.expert { return; }
      err := DisplayIdxOutOfRange;
      r := Hit(true, ScriptHash, start, 0);
      if r != None { return; }
      r := Hit(true, VerifyScriptHash, start, 1);
      if r != None { return; }
      r := Hit(true, ChainID, start, 2);
      if r != None { return; }
      r := Hit(true, ScriptArguments, start, 3);
      if r != None { return; }
      r := ArbitraryScreens(c.argCount, start, 4);
      if r != None { return; }
      r := TailScreens(c, start, 4 + c.argCount);
    }

    /** The walk: the screen that the index selects, or why there is none. */
    method GetItemInternal(c: Config) returns (r: Outcome)
      requires IsConfig(c) && COUNTING <= displayIdx <= INT8_MAX
      modifies this
      ensures old(displayIdx) >= 0 ==> r == Select(AllScreens(c), old(displayIdx))
      ensures old(displayIdx) == COUNTING ==>
        r == Ended(AllScreens(c).end) && displayIdx == After(COUNTING, |AllScreens(c).screens|)
    {
      hide AllScreens;
      ghost var start := displayIdx;
      var s, err;
      if c.metadata.Some? {
        s, err := KnownScreens(c, start);
      } else {
        s, err := ExpertScreens(c, start);
      }
      return if s != None then Shown(s.value) else Ended(err);
    }
  }

  /** Passing a list behind another that was passed is passing both, and whatever follows a selected screen. */
  lemma PassedBehind(start: int, k: nat, seen: seq<Screen>, list: seq<Screen>, rest: seq<Screen>, r: Option<Screen>,
                     idx: int)
    requires start >= 0 ==> k + |seen| <= start
    requires Passed(start, k + |seen|, list, r, idx) && (r != None || rest == [])
    ensures Passed(start, k, seen + list + rest, r, idx)
  {
  }

  lemma LastArgument(c: Config, args: seq<Metadata.Argument>)
    requires |args| == |c.counts|
    ensures KnownArguments(c, args, |args|) == Tail(c)
  {
  }

  lemma BeforeIs(list: seq<Screen>, w: Walk)
    ensures Before(list, w) == Walk(list + w.screens, w.end)
  {
  }

  lemma BeforeNothing(w: Walk)
    ensures Before([], w) == w
  {
    assert [] + w.screens == w.screens;
  }

  lemma BeforeBefore(a: seq<Screen>, b: seq<Screen>, w: Walk)
    ensures Before(a, Before(b, w)) == Before(a + b, w)
  {
    assert a + (b + w.screens) == a + b + w.screens;
  }

  // ---------------------------------------------------------------- counting and selecting

  datatype NumItems = Count(n: nat) | Failed(err: ParserError)

  const MAX_SCREENS := 126

  function ItemCountOf(w: Walk): NumItems {
    if |w.screens| > MAX_SCREENS then Failed(UnexpectedError)
    else if w.end == DisplayIdxOutOfRange then Count(|w.screens|)
    else if w.end == ParserError.Ok then Failed(UnexpectedError)
    else Failed(w.end)
  }

  method GetNumItems(c: Config) returns (r: NumItems)
    requires IsConfig(c)
    ensures r == ItemCountOf(AllScreens(c))
  {
    var display := new Display(COUNTING);
    var outcome := display.GetItemInternal(c);
    var displays := display.displayIdx;
    if displays == INT8_MIN { return Failed(UnexpectedError); }
    var pages := COUNTING - displays;
    if pages < 0 { return Failed(UnexpectedError); }
    if outcome.Shown? { return Failed(UnexpectedError); }
    if outcome.err == DisplayIdxOutOfRange { return Count(pages); }
    if outcome.err == ParserError.Ok { return Failed(UnexpectedError); }
    return Failed(outcome.err);
  }

  method GetItem(c: Config, displayIdx: byte) returns (r: Outcome)
    requires IsConfig(c)
    ensures r == if displayIdx > 127 then Ended(DisplayIdxOutOfRange) else Select(AllScreens(c), displayIdx)
  {
    if displayIdx > INT8_MAX { return Ended(DisplayIdxOutOfRange); }
    var display := new Display(displayIdx);
    r := display.GetItemInternal(c);
  }

  /** An argument gives screens: its metadata has a known kind, and an array is counted. */
  predicate HasScreens(c: Config, i: nat)
    requires IsConfig(c) && c.metadata.Some? && i < |c.counts|
  {
    var kind := c.metadata.value.args[i].kind;
    NORMAL <= kind <= NODE_ROLE && (kind == Metadata.ARRAY ==> c.counts[i].Counted?)
  }

  function ScreensOf(c: Config, i: nat): seq<Screen>
    requires IsConfig(c) && c.metadata.Some? && i < |c.counts|
  {
    if c.metadata.value.args[i].kind != Metadata.ARRAY then [Screen.Argument(i)]
    else if c.counts[i].Counted? then Items(i, c.counts[i].n)
    else []
  }

  /** What a complete review shows, in order. */
  function Review(c: Config): seq<Screen>
    requires IsConfig(c)
  {
    (if c.metadata.Some? then [TypeName, ChainID] + ArgumentScreens(c, 0)
     else [ScriptHash, VerifyScriptHash, ChainID, ScriptArguments] + Arbitrary(c.argCount))
    + FIELDS + Authorizers(c.authorizers) + (if c.expert then [YourPath] else []) + Warnings(c)
  }

  function ArgumentScreens(c: Config, i: nat): seq<Screen>
    requires IsConfig(c) && c.metadata.Some? && i <= |c.counts|
    decreases |c.counts| - i
  {
    if i == |c.counts| then [] else ScreensOf(c, i) + ArgumentScreens(c, i + 1)
  }

  /**
   * When the review can be shown to its end: metadata that matches the arguments and counts all arrays, or expert
   * mode.
   */
  predicate Showable(c: Config)
    requires IsConfig(c)
  {
    if c.metadata.None? then c.expert
    else
      && |c.metadata.value.args| == c.argCount
      && forall i :: 0 <= i < |c.counts| ==> HasScreens(c, i)
  }

  /** No refusal of a count is the code that marks the end of the screens. */
  predicate NoCountIsEnd(c: Config) {
    forall k :: 0 <= k < |c.counts| && c.counts[k].Refused? ==> c.counts[k].err != DisplayIdxOutOfRange
  }

  lemma KnownArgumentIs(c: Config, i: nat)
    requires IsConfig(c) && c.metadata.Some? && i < |c.counts| && NoCountIsEnd(c)
    ensures var w := KnownArguments(c, c.metadata.value.args, i);
      if HasScreens(c, i) then w == Before(ScreensOf(c, i), KnownArguments(c, c.metadata.value.args, i + 1))
      else w.end != DisplayIdxOutOfRange
  {
    hide Tail, Items, Before;
  }

  lemma {:induction false} KnownArgumentsAre(c: Config, i: nat)
    requires IsConfig(c) && c.metadata.Some? && i <= |c.counts| && NoCountIsEnd(c)
    ensures var w := KnownArguments(c, c.metadata.value.args, i);
      if forall k :: i <= k < |c.counts| ==> HasScreens(c, k) then w == Before(ArgumentScreens(c, i), Tail(c))
      else w.end != DisplayIdxOutOfRange
    decreases |c.counts| - i
  {
    hide Tail, HasScreens, ScreensOf, KnownArguments;
    if i < |c.counts| {
      KnownArgumentsAre(c, i + 1);
      KnownArgumentIs(c, i);
      BeforeBefore(ScreensOf(c, i), ArgumentScreens(c, i + 1), Tail(c));
    } else {
      LastArgument(c, c.metadata.value.args);
      assert [] + Tail(c).screens == Tail(c).screens;
    }
  }

  /** The walk goes through the whole review exactly when it is showable. */
  lemma ScreensAreReview(c: Config)
    requires IsConfig(c) && NoCountIsEnd(c)
    ensures if Showable(c) then AllScreens(c) == Walk(Review(c), DisplayIdxOutOfRange)
            else AllScreens(c).end != DisplayIdxOutOfRange
  {
    hide KnownArguments, ArgumentScreens, Warnings, HasScreens, Arbitrary;
    if c.metadata.Some? {
      KnownArgumentsAre(c, 0);
      if Showable(c) {
        BeforeBefore([TypeName, ChainID], ArgumentScreens(c, 0), Tail(c));
        assert Review(c) == [TypeName, ChainID] + ArgumentScreens(c, 0) + Tail(c).screens;
      }
    } else {
      assert [ScriptHash, VerifyScriptHash, ChainID] + ([ScriptArguments] + Arbitrary(c.argCount))
          == [ScriptHash, VerifyScriptHash, ChainID, ScriptArguments] + Arbitrary(c.argCount);
      if c.expert {
        assert Review(c)
            == [ScriptHash, VerifyScriptHash, ChainID, ScriptArguments] + Arbitrary(c.argCount) + Tail(c).screens;
      }
    }
  }

  /**
   * Counting succeeds exactly on showable reviews of at most 126 screens; then every index below the count
   * selects the screen at that place of the review, and every other one is out of range.
   */
  lemma CountAndSelect(c: Config, i: nat)
    requires IsConfig(c) && i <= 127
    requires NoCountIsEnd(c)
    ensures ItemCountOf(AllScreens(c)).Count? <==> Showable(c) && |Review(c)| <= 126
    ensures ItemCountOf(AllScreens(c)).Count? ==>
      && ItemCountOf(AllScreens(c)).n == |Review(c)|
      && Select(AllScreens(c), i) == if i < |Review(c)| then Shown(Review(c)[i]) else Ended(DisplayIdxOutOfRange)
  {
    hide AllScreens, Review, Showable;
    ScreensAreReview(c);
  }

  /** The counting of array items never answers with the code that marks the end of the screens. */
  lemma RefusalIsNotEnd(z: Limits, args: seq<bytes>, index: nat, min: nat, max: nat)
    ensures var r := ArgumentItems(z, args, index, min, max); r.Refused? ==> r.err != DisplayIdxOutOfRange
  {
  }
}
