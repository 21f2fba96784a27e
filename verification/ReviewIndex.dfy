/**
 * The flat index of a review with several pages per item (deps/ledger-zxlib/app/ui/view_nbgl.c): 8-bit sums of
 * page counts, and the search for the item and page of an index.
 */
module ReviewIndex {
  import opened Bytes

  /** An item and a page of it. */
  datatype Place = Place(item: nat, page: nat)

  function Total(counts: bytes): nat { if counts == [] then 0 else counts[0] + Total(counts[1..]) }

  /** All places in the order of the review, for the items from number `i` on. */
  function Places(counts: bytes, i: nat): (r: seq<Place>)
    ensures |r| == Total(counts)
    decreases |counts|
  {
    if counts == [] then []
    else seq(counts[0], p requires 0 <= p < counts[0] => Place(i, p)) + Places(counts[1..], i + 1)
  }

  /** The sum of the page counts, in the 8 bits the program keeps. */
  function PairNumber(counts: bytes): byte { Total(counts) % 256 }

  /** The search from item `i` on, with the pages counted so far in 8 bits. */
  function Find(counts: bytes, i: nat, acc: byte, idx: byte): Option<Place>
    decreases |counts|
  {
    if counts == [] || counts[0] == 0 then None
    else if acc as int + counts[0] > idx then Some(Place(i, (idx as int - acc) % 256))
    else Find(counts[1..], i + 1, (acc as int + counts[0]) % 256, idx)
  }

  function Located(counts: bytes, idx: byte): Option<Place> { Find(counts, 0, 0, idx) }

  /** Items without a page come last, if there are any. */
  predicate ZerosLast(counts: bytes) { forall i, j :: 0 <= i < j < |counts| && counts[i] == 0 ==> counts[j] == 0 }

  lemma {:induction false} ZerosTotal(counts: bytes)
    requires forall i :: 0 <= i < |counts| ==> counts[i] == 0
    ensures Total(counts) == 0
    decreases |counts|
  {
    if counts != [] { ZerosTotal(counts[1..]); }
  }

  /** The search finds the place at the index, while no sum leaves its 8 bits and no empty item is in the way. */
  lemma {:induction false} FindIs(counts: bytes, i: nat, acc: byte, idx: byte)
    requires ZerosLast(counts) && acc <= idx < acc as int + Total(counts) <= 255
    ensures Find(counts, i, acc, idx) == Some(Places(counts, i)[idx as int - acc])
    decreases |counts|
  {
    if counts[0] == 0 {
      ZerosTotal(counts);
      assert false;
    } else if acc as int + counts[0] <= idx {
      hide ZerosLast;
      ZerosLastTail(counts);
      FindIs(counts[1..], i + 1, acc + counts[0], idx);
    }
  }

  lemma ZerosLastTail(counts: bytes)
    requires counts != [] && ZerosLast(counts)
    ensures ZerosLast(counts[1..])
  {
    var t := counts[1..];
    forall a, b | 0 <= a < b < |t| && t[a] == 0 ensures t[b] == 0 { assert counts[a + 1] == 0; }
  }

  lemma {:induction false} FindBehind(counts: bytes, i: nat, acc: byte, idx: byte)
    requires acc as int + Total(counts) <= 255 && acc as int + Total(counts) <= idx
    ensures Find(counts, i, acc, idx) == None
    decreases |counts|
  {
    if counts != [] && counts[0] > 0 { FindBehind(counts[1..], i + 1, acc + counts[0], idx); }
  }

  /** An empty item in front of one with pages hides it: the search never gets behind it. */
  lemma {:induction false} FindStops(counts: bytes, i: nat, acc: byte, idx: byte, z: nat)
    requires z < |counts| && counts[z] == 0
    ensures Find(counts, i, acc, idx).Some? ==> Find(counts, i, acc, idx).value.item < i + z
    decreases |counts|
  {
    if z > 0 && counts[0] > 0 && acc as int + counts[0] <= idx {
      FindStops(counts[1..], i + 1, (acc as int + counts[0]) % 256, idx, z - 1);
    }
  }

  lemma {:induction false} PlaceOf(counts: bytes, i: nat, j: nat) returns (k: nat)
    requires j < |counts| && counts[j] > 0
    ensures k < Total(counts) && Places(counts, i)[k] == Place(i + j, 0)
    decreases |counts|
  {
    if j == 0 {
      k := 0;
    } else {
      var rest := PlaceOf(counts[1..], i + 1, j - 1);
      k := counts[0] as int + rest;
    }
  }

  /** Every index below the pair number shows the place of the review at that index, and these are all places. */
  predicate Covers(counts: bytes) {
    |Places(counts, 0)| == PairNumber(counts)
    && forall idx: byte :: 0 <= idx < PairNumber(counts) ==> Located(counts, idx) == Some(Places(counts, 0)[idx])
  }

  /**
   * The indices below the pair number go through every page of every item once and in order, exactly when
   * the pages fit in 8 bits together and no item without pages stands in front of one with pages.
   */
  lemma CoversIff(counts: bytes)
    ensures Covers(counts) <==> Total(counts) <= 255 && ZerosLast(counts)
  {
    hide Find;
    if Total(counts) <= 255 && ZerosLast(counts) {
      forall idx: byte | 0 <= idx < PairNumber(counts) ensures Located(counts, idx) == Some(Places(counts, 0)[idx]) {
        FindIs(counts, 0, 0, idx);
      }
    } else if Covers(counts) {
      var i, j :| 0 <= i < j < |counts| && counts[i] == 0 && counts[j] > 0;
      HiddenPlace(counts, i, j);
    }
  }

  lemma HiddenPlace(counts: bytes, i: nat, j: nat)
    requires i < j < |counts| && counts[i] == 0 && counts[j] > 0 && Total(counts) <= 255
    ensures !Covers(counts)
  {
    var k := PlaceOf(counts, 0, j);
    var idx: byte := k;
    FindStops(counts, 0, 0, idx, i);
  }

  /**
   * When every item has a page and all pages fit, an index shows something exactly when it is below the pair number.
   */
  lemma LocatedIff(counts: bytes, idx: byte)
    requires 0 !in counts && Total(counts) <= 255
    ensures Located(counts, idx).Some? <==> idx < PairNumber(counts)
  {
    if idx < PairNumber(counts) { FindIs(counts, 0, 0, idx); } else { FindBehind(counts, 0, 0, idx); }
  }

  /** The search stops at the item: the pages before it, in 8 bits, and its own are more than the index. */
  predicate Stops(counts: bytes, idx: byte, i: nat)
    requires i < |counts|
  {
    Total(counts[..i]) % 0x100 + counts[i] > idx
  }

  /** What any index finds, with 8-bit sums: the first item at which the search stops, unless an empty one is before. */
  predicate Finds(counts: bytes, idx: byte, i: nat, page: nat) {
    && i < |counts| && Stops(counts, idx, i) && counts[i] > 0
    && (forall k :: 0 <= k < i ==> counts[k] > 0 && !Stops(counts, idx, k))
    && page == (idx as int - Total(counts[..i])) % 0x100
  }

  lemma {:induction false} FindFrom(counts: bytes, idx: byte, i: nat, acc: byte, j: nat, page: nat)
    requires i <= |counts| && acc == Total(counts[..i]) % 0x100
    requires forall k :: 0 <= k < i ==> counts[k] > 0 && !Stops(counts, idx, k)
    ensures Find(counts[i..], i, acc, idx) == Some(Place(j, page)) <==> Finds(counts, idx, j, page)
    decreases |counts| - i
  {
    hide Total, Find;
    FindStep(counts, i, acc, idx);
    if i < |counts| && counts[i] > 0 {
      if Stops(counts, idx, i) {
        SamePage(idx, acc, Total(counts[..i]));
      } else {
        assert counts[..i + 1] == counts[..i] + [counts[i]];
        TotalSnoc(counts[..i], counts[i]);
        NextSum(Total(counts[..i]), acc, counts[i]);
        FindFrom(counts, idx, i + 1, (acc as int + counts[i]) % 256, j, page);
      }
    }
  }

  lemma FindStep(counts: bytes, i: nat, acc: byte, idx: byte)
    requires i <= |counts|
    ensures Find(counts[i..], i, acc, idx)
         == if i == |counts| || counts[i] == 0 then None
            else if acc as int + counts[i] > idx then Some(Place(i, (idx as int - acc) % 256))
            else Find(counts[i + 1..], i + 1, (acc as int + counts[i]) % 256, idx)
  {
    if i < |counts| { assert counts[i..][1..] == counts[i + 1..]; }
  }

  lemma NextSum(total: nat, acc: byte, c: byte)
    requires acc == total % 0x100
    ensures (acc as int + c) % 256 == (total + c) % 0x100
  {
  }

  lemma SamePage(idx: byte, acc: byte, total: nat)
    requires acc == total % 0x100
    ensures (idx as int - acc) % 256 == (idx as int - total) % 0x100
  {
  }

  /** The search for every index, whether the sums fit in 8 bits or not. */
  lemma LocatedIs(counts: bytes, idx: byte, i: nat, page: nat)
    ensures Located(counts, idx) == Some(Place(i, page)) <==> Finds(counts, idx, i, page)
  {
    assert counts[0..] == counts && counts[..0] == [];
    FindFrom(counts, idx, 0, 0, i, page);
  }

  // ---------------------------------------------------------------- the program

  lemma {:induction false} TotalSnoc(counts: bytes, c: byte)
    ensures Total(counts + [c]) == Total(counts) + c
    decreases |counts|
  {
    if counts == [] {
      assert [] + [c] == [c] && [c][1..] == [];
      assert Total([c]) == c + Total([]);
    } else {
      assert (counts + [c])[1..] == counts[1..] + [c];
      TotalSnoc(counts[1..], c);
    }
  }

  /** The page counts are what the item function reports for page 0 of each item. */
  method GetPairNumber(counts: bytes) returns (numPairs: byte)
    ensures numPairs == PairNumber(counts)
  {
    numPairs := 0;
    for i := 0 to |counts|
      invariant numPairs == PairNumber(counts[..i])
    {
      TotalSnoc(counts[..i], counts[i]);
      assert counts[..i + 1] == counts[..i] + [counts[i]];
      numPairs := (numPairs as int + counts[i]) % 256;
    }
    assert counts[..|counts|] == counts;
  }

  method ReviewUpdateData(counts: bytes, itemIdx: byte) returns (r: Option<Place>)
    ensures r == Located(counts, itemIdx)
  {
    var accPages: byte := 0;
    assert counts[0..] == counts;
    for i := 0 to |counts|
      invariant Located(counts, itemIdx) == Find(counts[i..], i, accPages, itemIdx)
    {
      var pageCount := counts[i];
      assert counts[i..][1..] == counts[i + 1..];
      if pageCount == 0 { return None; }
      if accPages as int + pageCount > itemIdx {
        return Some(Place(i, (itemIdx as int - accPages) % 256));
      }
      accPages := (accPages as int + pageCount) % 256;
    }
    return None;
  }
}
