/**
 * Paging and the flat index together: going through all indices of a review shows every value whole and in
 * order, each in its own rendering.
 */
module FullReview {
  import opened Bytes
  import opened Paging
  import opened ReviewIndex

  datatype Rendering = Text | Hexadecimal

  type Width = n: nat | n > 0 witness 1

  /** A value, how it is shown, and how many of its bytes fit on a page. */
  datatype Item = Item(value: bytes, rendering: Rendering, chunk: Width)

  function PagesOf(x: Item): nat { Pages(|x.value|, x.chunk) }

  function CountOf(x: Item): byte { PageCount(|x.value|, x.chunk) }

  function Rendered(r: Rendering, text: bytes): bytes { if r == Text then text else Hex(text) }

  /** What stands on a page of the item. */
  function PageOf(x: Item, page: byte): bytes { Rendered(x.rendering, Shown(x.value, x.chunk, page)) }

  /** What stands on its first `n` pages. */
  function FirstPages(x: Item, n: nat): bytes
    requires n <= 256
  {
    if n == 0 then [] else FirstPages(x, n - 1) + PageOf(x, n - 1)
  }

  function Whole(x: Item): bytes { Rendered(x.rendering, x.value) }

  /** Text is shown as it is, other values as hexadecimal digits that read back. */
  lemma WholeIs(x: Item)
    ensures if x.rendering == Text then Whole(x) == x.value
            else |Whole(x)| == 2 * |x.value| && Unhex(Whole(x)) == x.value
  {
    hide Hex, Unhex;
    UnhexHex(x.value);
  }

  /** The page counts that the items report. */
  function Counts(items: seq<Item>): (r: bytes)
    ensures |r| == |items|
  {
    if items == [] then [] else [CountOf(items[0])] + Counts(items[1..])
  }

  function TotalPages(items: seq<Item>): nat { if items == [] then 0 else PagesOf(items[0]) + TotalPages(items[1..]) }

  /** All values, one behind the other. */
  function Everything(items: seq<Item>): bytes { if items == [] then [] else Whole(items[0]) + Everything(items[1..]) }

  /** What is shown at a place, the items of the list being numbered from `i`. */
  function ShownAt(items: seq<Item>, i: nat, p: Place): bytes {
    if i <= p.item < i + |items| && p.page < 256 then PageOf(items[p.item - i], p.page) else []
  }

  function Walked(items: seq<Item>, i: nat, places: seq<Place>): bytes
    decreases |places|
  {
    if places == [] then [] else Walked(items, i, places[..|places| - 1]) + ShownAt(items, i, places[|places| - 1])
  }

  // ---------------------------------------------------------------- one item

  lemma {:induction false} FirstPagesAre(x: Item, n: nat)
    requires n <= 256
    ensures FirstPages(x, n) == Rendered(x.rendering, AllShown(x.value, x.chunk, n))
    decreases n
  {
    hide Shown, Hex;
    if n > 0 {
      FirstPagesAre(x, n - 1);
      HexConcat(AllShown(x.value, x.chunk, n - 1), Shown(x.value, x.chunk, n - 1));
    } else {
      NoHex();
    }
  }

  /** The counted pages of an item show it whole, or too little of it. */
  lemma ItemShown(x: Item)
    ensures if PagesOf(x) <= 255 then CountOf(x) == PagesOf(x) && FirstPages(x, CountOf(x)) == Whole(x)
            else |FirstPages(x, CountOf(x))| < |Whole(x)|
  {
    hide Pages, PageCount, AllShown, Hex, FirstPages;
    FirstPagesAre(x, CountOf(x));
    CountAtMost(|x.value|, x.chunk);
    PagesCoverIff(x.value, x.chunk);
    if PagesOf(x) > 255 { TooManyPages(x.value, x.chunk); }
  }

  lemma NoPagesIff(x: Item)
    ensures PagesOf(x) == 0 <==> x.value == []
  {
    Division(|x.value|, x.chunk);
  }

  // ---------------------------------------------------------------- the walk

  lemma {:induction false} WalkedConcat(items: seq<Item>, i: nat, a: seq<Place>, b: seq<Place>)
    ensures Walked(items, i, a + b) == Walked(items, i, a) + Walked(items, i, b)
    decreases |b|
  {
    hide ShownAt;
    if b == [] {
      assert a + b == a;
    } else {
      assert (a + b)[..|a + b| - 1] == a + b[..|b| - 1];
      WalkedConcat(items, i, a, b[..|b| - 1]);
    }
  }

  function PlacesOf(i: nat, n: nat): (r: seq<Place>)
    ensures |r| == n
  {
    seq(n, p requires 0 <= p < n => Place(i, p))
  }

  lemma {:induction false} WalkedItem(items: seq<Item>, i: nat, n: nat)
    requires items != [] && n <= 256
    ensures Walked(items, i, PlacesOf(i, n)) == FirstPages(items[0], n)
    decreases n
  {
    hide PageOf;
    if n > 0 {
      assert PlacesOf(i, n)[..n - 1] == PlacesOf(i, n - 1);
      WalkedItem(items, i, n - 1);
    }
  }

  lemma {:induction false} WalkedRest(items: seq<Item>, i: nat, places: seq<Place>)
    requires items != [] && forall k :: 0 <= k < |places| ==> places[k].item > i
    ensures Walked(items, i, places) == Walked(items[1..], i + 1, places)
    decreases |places|
  {
    hide PageOf;
    if places != [] { WalkedRest(items, i, places[..|places| - 1]); }
  }

  lemma {:induction false} PlacesFrom(counts: bytes, i: nat)
    ensures forall k :: 0 <= k < |Places(counts, i)| ==> Places(counts, i)[k].item >= i
    decreases |counts|
  {
    if counts != [] { PlacesFrom(counts[1..], i + 1); }
  }

  /** The walk goes through the first item, and then through the others. */
  lemma WalkedFirst(items: seq<Item>, i: nat)
    requires items != []
    ensures Walked(items, i, Places(Counts(items), i))
         == FirstPages(items[0], CountOf(items[0])) + Walked(items[1..], i + 1, Places(Counts(items[1..]), i + 1))
  {
    hide Walked, FirstPages;
    var counts, rest := Counts(items), Counts(items[1..]);
    assert counts[1..] == rest && counts[0] == CountOf(items[0]);
    assert Places(counts, i) == PlacesOf(i, counts[0]) + Places(rest, i + 1);
    PlacesFrom(rest, i + 1);
    WalkedConcat(items, i, PlacesOf(i, counts[0]), Places(rest, i + 1));
    WalkedItem(items, i, counts[0]);
    WalkedRest(items, i, Places(rest, i + 1));
  }

  predicate AllCounted(items: seq<Item>) { forall k :: 0 <= k < |items| ==> PagesOf(items[k]) <= 255 }

  /** All places in order show all values one behind the other, or too little, if some value has too many pages. */
  lemma {:induction false} PlacesShow(items: seq<Item>, i: nat)
    ensures var shown := Walked(items, i, Places(Counts(items), i));
      if AllCounted(items) then Total(Counts(items)) == TotalPages(items) && shown == Everything(items)
      else |shown| < |Everything(items)|
    decreases |items|
  {
    hide PagesOf, CountOf, Whole, FirstPages, Walked, Places;
    if items == [] {
      NothingWalked(items, i);
    } else {
      var rest := items[1..];
      PlacesShow(rest, i + 1);
      WalkedFirst(items, i);
      ItemShown(items[0]);
      assert Counts(items)[1..] == Counts(rest);
      assert items == [items[0]] + rest;
      assert AllCounted(items) <==> PagesOf(items[0]) <= 255 && AllCounted(rest);
    }
  }

  lemma NothingWalked(items: seq<Item>, i: nat)
    ensures Walked(items, i, []) == [] && Places([], i) == []
  {
  }

  lemma {:induction false} TotalCounted(items: seq<Item>)
    ensures TotalPages(items) <= 255 ==> AllCounted(items)
    decreases |items|
  {
    hide PagesOf;
    if items != [] {
      TotalCounted(items[1..]);
      assert items == [items[0]] + items[1..];
    }
  }

  lemma {:induction false} CountsAt(items: seq<Item>, k: nat)
    requires k < |items|
    ensures Counts(items)[k] == CountOf(items[k])
    decreases k
  {
    if k > 0 { CountsAt(items[1..], k - 1); }
  }

  /** Values that are empty come last, if there are any. */
  predicate EmptyLast(items: seq<Item>) {
    forall i, j :: 0 <= i < j < |items| && items[i].value == [] ==> items[j].value == []
  }

  lemma EmptyLastIff(items: seq<Item>)
    requires AllCounted(items)
    ensures ZerosLast(Counts(items)) <==> EmptyLast(items)
  {
    hide PagesOf, CountOf, Counts;
    forall k | 0 <= k < |items| ensures Counts(items)[k] == 0 <==> items[k].value == [] {
      CountsAt(items, k);
      ItemShown(items[k]);
      NoPagesIff(items[k]);
    }
  }

  /**
   * The indices below the pair number lead to all places in order, and what they show one after the other is
   * every value whole, in its rendering - exactly when all pages together fit in 8 bits and no empty value
   * stands in front of one that is not.
   */
  lemma ReviewShowsEverythingIff(items: seq<Item>)
    ensures var counts := Counts(items);
      Covers(counts) && Walked(items, 0, Places(counts, 0)) == Everything(items)
      <==> TotalPages(items) <= 255 && EmptyLast(items)
  {
    hide Covers, ZerosLast, EmptyLast, Walked, Places;
    PlacesShow(items, 0);
    TotalCounted(items);
    CoversIff(Counts(items));
    if AllCounted(items) { EmptyLastIff(items); }
  }
}
