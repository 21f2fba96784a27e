/**
 * The review once more, as a set and an order (src/parser_tx.c): which screens belong to it, and which of two comes
 * first. Together they leave one list only.
 */
module ScreenOrder {
  import opened Bytes
  import opened Errors
  import opened Metadata
  import opened JsonNavigator
  import opened Screens
  import JsonTree
  import Validation

  predicate IsArray(c: Config, i: nat)
    requires IsConfig(c) && c.metadata.Some? && i < |c.counts|
  {
    c.metadata.value.args[i].kind == 3
  }

  /** Which screens a review has. */
  predicate Belongs(c: Config, s: Screen)
    requires IsConfig(c)
  {
    match s
    case TypeName => c.metadata.Some?
    case ScriptHash => c.metadata.None?
    case VerifyScriptHash => c.metadata.None?
    case ScriptArguments => c.metadata.None?
    case Argument(i) => c.metadata.Some? && i < |c.counts| && !IsArray(c, i)
    case ArrayItem(i, j) =>
      c.metadata.Some? && i < |c.counts| && IsArray(c, i) && c.counts[i].Counted? && j < c.counts[i].n
    case ArbitraryArgument(i) => c.metadata.None? && i < c.argCount
    case Authorizer(i) => i < c.authorizers
    case YourPath => c.expert
    case IncorrectAddress => (c.showAddress == Yes || c.showAddress == YesHashMismatch) && !c.addressUsed
    case HashMismatch => c.showAddress == YesHashMismatch
    case NoAddress => c.showAddress == EmptySlot
    case DifferentAddress => c.showAddress == HDPathsNotEqual
    case SlotError => c.showAddress == ShowNone || c.showAddress == ShowError
    case _ => true
  }

  datatype Rank = Rank(group: nat, i: nat, j: nat)

  /** The place of a screen: what the transaction does, what it is done with, by whom, and what is wrong. */
  function RankOf(s: Screen): Rank {
    match s
    case TypeName => Rank(0, 0, 0)
    case ScriptHash => Rank(1, 0, 0)
    case VerifyScriptHash => Rank(2, 0, 0)
    case ChainID => Rank(3, 0, 0)
    case ScriptArguments => Rank(4, 0, 0)
    case Argument(i) => Rank(5, i, 0)
    case ArrayItem(i, j) => Rank(5, i, j)
    case ArbitraryArgument(i) => Rank(5, i, 0)
    case RefBlock => Rank(6, 0, 0)
    case GasLimit => Rank(7, 0, 0)
    case PropKeyAddr => Rank(8, 0, 0)
    case PropKeyId => Rank(9, 0, 0)
    case PropKeySeqNum => Rank(10, 0, 0)
    case Payer => Rank(11, 0, 0)
    case Authorizer(i) => Rank(12, i, 0)
    case YourPath => Rank(13, 0, 0)
    case IncorrectAddress => Rank(14, 0, 0)
    case HashMismatch => Rank(15, 0, 0)
    case _ => Rank(16, 0, 0)
  }

  predicate Less(a: Rank, b: Rank) {
    a.group < b.group || (a.group == b.group && (a.i < b.i || (a.i == b.i && a.j < b.j)))
  }

  predicate Comes(s: Screen, t: Screen) { Less(RankOf(s), RankOf(t)) }

  predicate Sorted(list: seq<Screen>) { forall p, q :: 0 <= p < q < |list| ==> Comes(list[p], list[q]) }

  /** All screens of the list are in groups from `from` to `to`. */
  predicate Grouped(list: seq<Screen>, from: nat, to: nat) {
    forall s :: s in list ==> from <= RankOf(s).group <= to
  }

  lemma SortedJoin(a: seq<Screen>, b: seq<Screen>, from: nat, mid: nat, to: nat)
    requires Sorted(a) && Sorted(b) && Grouped(a, from, mid) && Grouped(b, mid + 1, to) && from <= mid <= to
    ensures Sorted(a + b) && Grouped(a + b, from, to)
  {
    hide RankOf;
    forall p, q | 0 <= p < q < |a + b| ensures Comes((a + b)[p], (a + b)[q]) {
      if p < |a| <= q { assert a[p] in a && b[q - |a|] in b; }
    }
  }

  // ---------------------------------------------------------------- the arguments

  predicate OfArgumentsFrom(list: seq<Screen>, i: nat) {
    forall s :: s in list ==> RankOf(s).group == 5 && RankOf(s).i >= i
  }

  lemma OneArgument(c: Config, i: nat)
    requires IsConfig(c) && c.metadata.Some? && i < |c.counts|
    ensures Sorted(ScreensOf(c, i)) && forall s :: s in ScreensOf(c, i) ==> RankOf(s).group == 5 && RankOf(s).i == i
    ensures forall s :: s in ScreensOf(c, i) <==>
      Belongs(c, s) && (s == Screen.Argument(i) || (s.ArrayItem? && s.i == i))
  {
    var list := ScreensOf(c, i);
    if IsArray(c, i) && c.counts[i].Counted? {
      forall j | 0 <= j < c.counts[i].n ensures ArrayItem(i, j) in list { assert list[j] == ArrayItem(i, j); }
    }
  }

  lemma {:induction false} ArgumentsSorted(c: Config, i: nat)
    requires IsConfig(c) && c.metadata.Some? && i <= |c.counts|
    ensures Sorted(Screens.ArgumentScreens(c, i)) && OfArgumentsFrom(Screens.ArgumentScreens(c, i), i)
    ensures forall s :: s in Screens.ArgumentScreens(c, i) <==>
      Belongs(c, s) && (s.Argument? || s.ArrayItem?) && s.i >= i
    decreases |c.counts| - i
  {
    hide ScreensOf, RankOf;
    if i < |c.counts| {
      var a, b := ScreensOf(c, i), Screens.ArgumentScreens(c, i + 1);
      OneArgument(c, i);
      ArgumentsSorted(c, i + 1);
      forall p, q | 0 <= p < q < |a + b| ensures Comes((a + b)[p], (a + b)[q]) {
        if p < |a| <= q { assert a[p] in a && b[q - |a|] in b; }
      }
    }
  }

  // ---------------------------------------------------------------- the parts of a review

  function Head(c: Config): seq<Screen>
    requires IsConfig(c)
  {
    if c.metadata.Some? then [TypeName, ChainID] + Screens.ArgumentScreens(c, 0)
    else [ScriptHash, VerifyScriptHash, ChainID, ScriptArguments] + Arbitrary(c.argCount)
  }

  predicate IsHead(s: Screen) { RankOf(s).group <= 5 }

  lemma HeadIs(c: Config)
    requires IsConfig(c)
    ensures Sorted(Head(c)) && Grouped(Head(c), 0, 5)
    ensures forall s :: s in Head(c) <==> Belongs(c, s) && IsHead(s)
  {
    if c.metadata.Some? { KnownHead(c); } else { ExpertHead(c); }
  }

  lemma KnownHead(c: Config)
    requires IsConfig(c) && c.metadata.Some?
    ensures Sorted(Head(c)) && Grouped(Head(c), 0, 5)
    ensures forall s :: s in Head(c) <==> Belongs(c, s) && IsHead(s)
  {
    ArgumentsSorted(c, 0);
    hide Belongs;
    SortedJoin([TypeName, ChainID], Screens.ArgumentScreens(c, 0), 0, 4, 5);
    FirstBelong(c);
  }

  lemma ExpertHead(c: Config)
    requires IsConfig(c) && c.metadata.None?
    ensures Sorted(Head(c)) && Grouped(Head(c), 0, 5)
    ensures forall s :: s in Head(c) <==> Belongs(c, s) && IsHead(s)
  {
    var list := Arbitrary(c.argCount);
    forall j | 0 <= j < c.argCount ensures ArbitraryArgument(j) in list { assert list[j] == ArbitraryArgument(j); }
    SortedJoin([ScriptHash, VerifyScriptHash, ChainID, ScriptArguments], list, 0, 4, 5);
  }

  lemma FirstBelong(c: Config)
    requires IsConfig(c) && c.metadata.Some?
    ensures forall s :: Belongs(c, s) && IsHead(s) <==>
      s == TypeName || s == ChainID || (Belongs(c, s) && (s.Argument? || s.ArrayItem?))
  {
  }

  lemma FieldsAre(c: Config)
    requires IsConfig(c)
    ensures Sorted(FIELDS) && Grouped(FIELDS, 6, 11)
    ensures forall s :: s in FIELDS <==> Belongs(c, s) && 6 <= RankOf(s).group <= 11
  {
    FieldsSorted();
    FieldsBelong(c);
  }

  lemma FieldsSorted()
    ensures Sorted(FIELDS)
  {
  }

  lemma FieldsBelong(c: Config)
    requires IsConfig(c)
    ensures forall s :: s in FIELDS <==> Belongs(c, s) && 6 <= RankOf(s).group <= 11
  {
    forall s | Belongs(c, s) && 6 <= RankOf(s).group <= 11 ensures s in FIELDS {
      assert FIELDS[0] == RefBlock && FIELDS[1] == GasLimit && FIELDS[2] == PropKeyAddr && FIELDS[3] == PropKeyId;
      assert FIELDS[4] == PropKeySeqNum && FIELDS[5] == Payer;
    }
  }

  lemma AuthorizersAre(c: Config)
    requires IsConfig(c)
    ensures Sorted(Authorizers(c.authorizers)) && Grouped(Authorizers(c.authorizers), 12, 12)
    ensures forall s :: s in Authorizers(c.authorizers) <==> Belongs(c, s) && RankOf(s).group == 12
  {
    var list := Authorizers(c.authorizers);
    forall j | 0 <= j < c.authorizers ensures Authorizer(j) in list { assert list[j] == Authorizer(j); }
  }

  lemma WarningsAre(c: Config)
    requires IsConfig(c)
    ensures Sorted(Warnings(c)) && Grouped(Warnings(c), 14, 16)
    ensures forall s :: s in Warnings(c) <==> Belongs(c, s) && 14 <= RankOf(s).group
  {
    WarningsSorted(c);
    WarningsBelong(c);
  }

  lemma WarningsSorted(c: Config)
    ensures Sorted(Warnings(c))
  {
  }

  lemma WarningsBelong(c: Config)
    requires IsConfig(c)
    ensures forall s :: s in Warnings(c) <==> Belongs(c, s) && 14 <= RankOf(s).group
  {
  }

  /** The screens of a review are those that belong to it, each once, in order. */
  lemma ReviewIsSorted(c: Config)
    requires IsConfig(c)
    ensures Sorted(Review(c)) && forall s :: s in Review(c) <==> Belongs(c, s)
  {
    hide Belongs, Warnings, Authorizers, Sorted, Grouped, FIELDS;
    HeadIs(c);
    FieldsAre(c);
    AuthorizersAre(c);
    WarningsAre(c);
    PathIs(c);
    var path := if c.expert then [YourPath] else [];
    SortedJoin(Head(c), FIELDS, 0, 5, 11);
    SortedJoin(Head(c) + FIELDS, Authorizers(c.authorizers), 0, 11, 12);
    SortedJoin(Head(c) + FIELDS + Authorizers(c.authorizers), path, 0, 12, 13);
    SortedJoin(Head(c) + FIELDS + Authorizers(c.authorizers) + path, Warnings(c), 0, 13, 16);
    assert Review(c) == Head(c) + FIELDS + Authorizers(c.authorizers) + path + Warnings(c);
    forall s ensures s in Review(c) <==> Belongs(c, s) { }
  }

  lemma PathIs(c: Config)
    requires IsConfig(c)
    ensures var path := if c.expert then [YourPath] else [];
      Sorted(path) && Grouped(path, 13, 13) && forall s :: s in path <==> Belongs(c, s) && RankOf(s).group == 13
  {
  }

  /** There is one such list. */
  lemma {:induction false} SortedIsUnique(a: seq<Screen>, b: seq<Screen>)
    requires Sorted(a) && Sorted(b) && forall s :: s in a <==> s in b
    ensures a == b
    decreases |a|
  {
    hide RankOf;
    if b != [] { assert b[0] in b; }
    if a != [] {
      assert a[0] in b && b != [] && b[0] in a;
      var p :| 0 <= p < |a| && a[p] == b[0];
      var q :| 0 <= q < |b| && b[q] == a[0];
      assert p == 0;
      forall s ensures s in a[1..] <==> s in b[1..] { RestMembers(a, s); RestMembers(b, s); }
      SortedIsUnique(a[1..], b[1..]);
      assert a == [a[0]] + a[1..] && b == [b[0]] + b[1..];
    }
  }

  lemma RestMembers(a: seq<Screen>, s: Screen)
    requires Sorted(a) && a != []
    ensures s in a[1..] <==> s in a && s != a[0]
  {
    hide RankOf;
    if s in a && s != a[0] {
      var p :| 0 <= p < |a| && a[p] == s;
      assert a[1..][p - 1] == s;
    }
    if s in a[1..] {
      var p :| 0 <= p < |a[1..]| && a[1..][p] == s;
      assert a[p + 1] == s && Comes(a[0], a[p + 1]);
    }
  }

  // ---------------------------------------------------------------- reviews that end early

  /** The first argument that gives no screens. */
  predicate FirstWithout(c: Config, i: int)
    requires IsConfig(c) && c.metadata.Some?
  {
    0 <= i < |c.counts| && !HasScreens(c, i) && forall k :: 0 <= k < i ==> HasScreens(c, k)
  }

  /** Why a review cannot be shown to its end. */
  lemma EndIs(c: Config)
    requires IsConfig(c) && NoCountIsEnd(c) && !Showable(c)
    ensures var end := AllScreens(c).end;
      if c.metadata.None? then end == UnexpectedError
      else if |c.metadata.value.args| != c.argCount then end == UnexpectedNumberItems
      else exists i :: FirstWithout(c, i) && end == if IsArray(c, i) then c.counts[i].err else MetadataError
  {
    hide KnownArguments, HasScreens;
    if c.metadata.Some? && |c.metadata.value.args| == c.argCount {
      EndFrom(c, 0);
    }
  }

  lemma {:induction false} EndFrom(c: Config, i: nat)
    requires IsConfig(c) && c.metadata.Some? && i <= |c.counts|
    requires (forall k :: 0 <= k < i ==> HasScreens(c, k)) && exists k :: i <= k < |c.counts| && !HasScreens(c, k)
    ensures var end := KnownArguments(c, c.metadata.value.args, i).end;
      exists j :: FirstWithout(c, j) && end == if IsArray(c, j) then c.counts[j].err else MetadataError
    decreases |c.counts| - i
  {
    hide Tail, Items;
    if HasScreens(c, i) { EndFrom(c, i + 1); } else { assert FirstWithout(c, i); }
  }

  // ---------------------------------------------------------------- array arguments

  /** The items of an array document, when their number is allowed and the document fits the table. */
  predicate HasItem(z: Limits, a: Metadata.Argument, before: bytes, v: JsonTree.Value, j: nat) {
    var items := TreeItems(v, |before|);
    && |JsonTree.ValueTokens(v, |before|)| <= z.tokens
    && items.Some? && a.min <= items.value <= a.max && j < items.value
  }

  /**
   * The screens of an array argument, with the review taken from the transaction: one for each item of the JSON tree
   * that the argument spells, and none when the tree is no array of an allowed size.
   */
  lemma ArrayScreensAreItems(z: Limits, d: Validation.Settings, m: Meta, args: seq<bytes>, authorizers: nat, i: nat,
                             j: nat, before: bytes, v: JsonTree.Value, after: bytes)
    requires i < |m.args| && m.args[i].kind == 3 && m.args[i].index < |args|
    requires args[m.args[i].index] == before + JsonTree.Text(v) + after
    requires JsonTree.IsBlank(before) && JsonTree.IsValue(v) && JsonTree.IsBlank(after)
    ensures ArrayItem(i, j) in Review(Validation.ConfigOf(z, d, Some(m), args, authorizers))
       <==> HasItem(z, m.args[i], before, v, j)
  {
    hide Review, TreeItems, ArgumentItems, NoArray;
    var c, a := Validation.ConfigOf(z, d, Some(m), args, authorizers), m.args[i];
    ReviewIsSorted(c);
    assert c.counts[i] == ArgumentItems(z, args, a.index, a.min, a.max);
    CountItemsIsTree(z, args, a.index, before, v, after, a.min, a.max);
  }
}
