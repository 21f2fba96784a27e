/**
 * The flat index: recovering the children of a container from the spans alone. The functions here are
 * what the navigator's loops compute; the lemmas say that on the tokens of a document they are the tree.
 */
module JsonIndex {
  import opened Bytes
  import opened Jsmn
  import opened JsonTree

  /** From token `j` on: the tokens that start behind the last one taken, until one starts behind `end`. */
  function Tops(table: seq<Token>, n: nat, j: nat, end: int, prev: int): seq<nat>
    requires n <= |table|
    decreases n - j
  {
    if j >= n || table[j].start > end then []
    else if table[j].start <= prev then Tops(table, n, j + 1, end, prev)
    else [j] + Tops(table, n, j + 1, end, table[j].end)
  }

  /** The same walk over keys, where the token behind a key is its value. */
  function Keys(table: seq<Token>, n: nat, j: nat, end: int, prev: int): seq<nat>
    requires n < |table|
    decreases n - j
  {
    if j >= n || table[j].start > end then []
    else if table[j].start <= prev then Keys(table, n, j + 1, end, prev)
    else [j] + Keys(table, n, j + 1, end, table[j + 1].end)
  }

  function ArrayElements(table: seq<Token>, n: nat, k: nat): seq<nat>
    requires k <= n < |table|
  {
    Tops(table, n, k + 1, table[k].end, table[k].start)
  }

  function ObjectKeys(table: seq<Token>, n: nat, k: nat): seq<nat>
    requires k <= n < |table|
  {
    Keys(table, n, k + 1, table[k].end, table[k].start)
  }

  /** The characters of a token are exactly `name`. */
  predicate Names(js: bytes, t: Token, name: bytes) {
    t.start >= 0 && t.end - t.start == |name| && At(js, t.start, name)
  }

  /** The first of these keys with that name. */
  function Lookup(js: bytes, table: seq<Token>, keys: seq<nat>, name: bytes): Option<nat> {
    if keys == [] then None
    else if keys[0] < |table| && Names(js, table[keys[0]], name) then Some(keys[0])
    else Lookup(js, table, keys[1..], name)
  }

  // ---------------------------------------------------------------- sizes and bounds of the tokens of a value

  function Size(v: Value): nat {
    match v
    case Str(_) => 1
    case Prim(_) => 1
    case Arr(_, items) => 1 + ItemsSize(items)
    case Obj(_, ms) => 1 + MembersSize(ms)
  }

  function ItemsSize(items: Items): nat {
    if items.NoItem? then 0 else Size(items.value) + ItemsSize(items.rest)
  }

  function MembersSize(ms: Members): nat {
    if ms.NoMember? then 0 else 1 + Size(ms.value) + MembersSize(ms.rest)
  }

  lemma {:induction false} TokensSize(v: Value, p: nat)
    ensures |ValueTokens(v, p)| == Size(v) > 0
    decreases v
  {
    match v
    case Str(_) =>
    case Prim(_) =>
    case Arr(g, items) => ItemTokensSize(items, p + 1 + |g|);
    case Obj(g, ms) => MemberTokensSize(ms, p + 1 + |g|);
  }

  lemma {:induction false} ItemTokensSize(items: Items, p: nat)
    ensures |ItemTokens(items, p)| == ItemsSize(items)
    decreases items
  {
    if items.Item? {
      TokensSize(items.value, p + |items.before|);
      ItemTokensSize(items.rest, p + |items.before| + Len(items.value) + |items.after| + 1);
    }
  }

  lemma {:induction false} MemberTokensSize(ms: Members, p: nat)
    ensures |MemberTokens(ms, p)| == MembersSize(ms)
    decreases ms
  {
    if ms.Member? {
      TokensSize(ms.value, ValueAt(ms, p));
      MemberTokensSize(ms.rest, ValueAt(ms, p) + Len(ms.value) + |ms.w4| + 1);
    }
  }

  /** All these tokens start in the range. */
  predicate StartIn(toks: seq<Token>, lo: int, hi: int) {
    forall i :: 0 <= i < |toks| ==> lo <= toks[i].start <= hi
  }

  /** The first token of a value spans it, and all the others start inside that span. */
  lemma {:induction false} TokensBounds(v: Value, p: nat)
    ensures var toks := ValueTokens(v, p);
      p <= toks[0].start <= toks[0].end <= p + Len(v) && StartIn(toks, p, toks[0].end)
    decreases v
  {
    match v
    case Str(_) =>
    case Prim(_) =>
    case Arr(g, items) => ItemTokensBounds(items, p + 1 + |g|);
    case Obj(g, ms) => MemberTokensBounds(ms, p + 1 + |g|);
  }

  lemma {:induction false} ItemTokensBounds(items: Items, p: nat)
    ensures StartIn(ItemTokens(items, p), p, p + ItemsLen(items))
    decreases items
  {
    if items.Item? {
      TokensBounds(items.value, p + |items.before|);
      ItemTokensBounds(items.rest, p + |items.before| + Len(items.value) + |items.after| + 1);
    }
  }

  lemma {:induction false} MemberTokensBounds(ms: Members, p: nat)
    ensures StartIn(MemberTokens(ms, p), p, p + MembersLen(ms))
    decreases ms
  {
    if ms.Member? {
      TokensBounds(ms.value, ValueAt(ms, p));
      MemberTokensBounds(ms.rest, ValueAt(ms, p) + Len(ms.value) + |ms.w4| + 1);
    }
  }

  // ---------------------------------------------------------------- the walks over a document's tokens

  /** Every used token from `j` on starts behind `e`. */
  predicate Beyond(table: seq<Token>, n: nat, j: nat, e: int)
    requires n <= |table|
  {
    forall i :: j <= i < n ==> table[i].start > e
  }

  /** Where the items of an array are, when the first is at token `k`. */
  function ItemIndices(items: Items, k: nat): seq<nat> {
    if items.NoItem? then [] else [k] + ItemIndices(items.rest, k + Size(items.value))
  }

  function KeyIndices(ms: Members, k: nat): seq<nat> {
    if ms.NoMember? then [] else [k] + KeyIndices(ms.rest, k + 1 + Size(ms.value))
  }

  lemma {:induction false} TopsSkip(table: seq<Token>, n: nat, j: nat, m: nat, end: int, prev: int)
    requires j <= m <= n <= |table|
    requires forall i :: j <= i < m ==> table[i].start <= prev && table[i].start <= end
    ensures Tops(table, n, j, end, prev) == Tops(table, n, m, end, prev)
    decreases m - j
  {
    if j < m { TopsSkip(table, n, j + 1, m, end, prev); }
  }

  lemma {:induction false} KeysSkip(table: seq<Token>, n: nat, j: nat, m: nat, end: int, prev: int)
    requires j <= m <= n < |table|
    requires forall i :: j <= i < m ==> table[i].start <= prev && table[i].start <= end
    ensures Keys(table, n, j, end, prev) == Keys(table, n, m, end, prev)
    decreases m - j
  {
    if j < m { KeysSkip(table, n, j + 1, m, end, prev); }
  }

  /** The tokens of a value standing in the table at `k`: the head, and the others inside its span. */
  lemma HeadAndInner(table: seq<Token>, k: nat, v: Value, p: nat)
    requires At(table, k, ValueTokens(v, p))
    ensures |ValueTokens(v, p)| == Size(v) && k + Size(v) <= |table|
    ensures p <= table[k].start <= table[k].end <= p + Len(v)
    ensures forall i :: k <= i < k + Size(v) ==> p <= table[i].start <= table[k].end
  {
    var toks := ValueTokens(v, p);
    TokensSize(v, p);
    TokensBounds(v, p);
    assert table[k] == toks[0];
    forall i | k <= i < k + Size(v) ensures p <= table[i].start <= table[k].end { assert table[i] == toks[i - k]; }
  }

  lemma {:induction false} TopsAreItems(table: seq<Token>, n: nat, items: Items, p: nat, k: nat, end: int, prev: int)
    requires n <= |table| && k + ItemsSize(items) <= n && At(table, k, ItemTokens(items, p))
    requires Beyond(table, n, k + ItemsSize(items), end)
    requires prev < p && (items.Item? ==> p + ItemsLen(items) < end)
    ensures Tops(table, n, k, end, prev) == ItemIndices(items, k)
    decreases items
  {
    if items.Item? {
      var q, v := p + |items.before|, items.value;
      var q' := q + Len(v) + |items.after| + 1;
      AtSplit(table, k, ValueTokens(v, q), ItemTokens(items.rest, q'));
      HeadAndInner(table, k, v, q);
      TopsSkip(table, n, k + 1, k + Size(v), end, table[k].end);
      TopsAreItems(table, n, items.rest, q', k + Size(v), end, table[k].end);
    }
  }

  /** The tokens of a member standing in the table at `k`. */
  lemma KeyAndValue(table: seq<Token>, k: nat, ms: Members, p: nat)
    requires ms.Member? && At(table, k, MemberTokens(ms, p))
    ensures var q := ValueAt(ms, p) + Len(ms.value) + |ms.w4| + 1;
      && k < |table| && table[k] == KeyToken(ms, p, 1)
      && At(table, k + 1, ValueTokens(ms.value, ValueAt(ms, p)))
      && At(table, k + 1 + |ValueTokens(ms.value, ValueAt(ms, p))|, MemberTokens(ms.rest, q))
  {
    var q := ValueAt(ms, p) + Len(ms.value) + |ms.w4| + 1;
    var key, toks := [KeyToken(ms, p, 1)], ValueTokens(ms.value, ValueAt(ms, p));
    AtSplit(table, k, key + toks, MemberTokens(ms.rest, q));
    AtSplit(table, k, key, toks);
    assert table[k] == key[0];
  }

  /** The walk takes a key and skips the tokens of its value. */
  lemma KeysTakeMember(table: seq<Token>, n: nat, ms: Members, p: nat, k: nat, end: int, prev: int)
    requires ms.Member? && n < |table| && k + 1 + Size(ms.value) <= n && At(table, k, MemberTokens(ms, p))
    requires prev < p && p + MembersLen(ms) < end
    ensures table[k + 1].end <= ValueAt(ms, p) + Len(ms.value)
    ensures Keys(table, n, k, end, prev) == [k] + Keys(table, n, k + 1 + Size(ms.value), end, table[k + 1].end)
  {
    KeyAndValue(table, k, ms, p);
    HeadAndInner(table, k + 1, ms.value, ValueAt(ms, p));
    KeysSkip(table, n, k + 1, k + 1 + Size(ms.value), end, table[k + 1].end);
  }

  lemma {:induction false} KeysAreMembers(table: seq<Token>, n: nat, ms: Members, p: nat, k: nat, end: int, prev: int)
    requires n < |table| && k + MembersSize(ms) <= n && At(table, k, MemberTokens(ms, p))
    requires Beyond(table, n, k + MembersSize(ms), end)
    requires prev < p && (ms.Member? ==> p + MembersLen(ms) < end)
    ensures Keys(table, n, k, end, prev) == KeyIndices(ms, k)
    decreases ms
  {
    if ms.Member? {
      var k', q' := k + 1 + Size(ms.value), ValueAt(ms, p) + Len(ms.value) + |ms.w4| + 1;
      KeysTakeMember(table, n, ms, p, k, end, prev);
      assert At(table, k', MemberTokens(ms.rest, q')) by {
        KeyAndValue(table, k, ms, p);
        TokensSize(ms.value, ValueAt(ms, p));
      }
      KeysAreMembers(table, n, ms.rest, q', k', end, table[k + 1].end);
    }
  }

  // ---------------------------------------------------------------- any node of a document

  /** The node `v`, spelled at `p`, has its token at `k`, in a document spelled at `p0` with tokens from `k0`. */
  predicate Occurs(doc: Value, p0: nat, k0: nat, v: Value, p: nat, k: nat)
    decreases doc
  {
    || (doc == v && p0 == p && k0 == k)
    || match doc
       case Str(_) => false
       case Prim(_) => false
       case Arr(g, items) => OccursInItems(items, p0 + 1 + |g|, k0 + 1, v, p, k)
       case Obj(g, ms) => OccursInMembers(ms, p0 + 1 + |g|, k0 + 1, v, p, k)
  }

  predicate OccursInItems(items: Items, p0: nat, k0: nat, v: Value, p: nat, k: nat)
    decreases items
  {
    items.Item? &&
    var q := p0 + |items.before|;
    || Occurs(items.value, q, k0, v, p, k)
    || OccursInItems(items.rest, q + Len(items.value) + |items.after| + 1, k0 + Size(items.value), v, p, k)
  }

  predicate OccursInMembers(ms: Members, p0: nat, k0: nat, v: Value, p: nat, k: nat)
    decreases ms
  {
    ms.Member? &&
    var q := ValueAt(ms, p0);
    || Occurs(ms.value, q, k0 + 1, v, p, k)
    || OccursInMembers(ms.rest, q + Len(ms.value) + |ms.w4| + 1, k0 + 1 + Size(ms.value), v, p, k)
  }

  /** The table holds the tokens of `v` from `k`, and what it holds behind them starts behind `v`. */
  predicate Holds(table: seq<Token>, n: nat, v: Value, p: nat, k: nat) {
    && n < |table| && k + Size(v) <= n
    && At(table, k, ValueTokens(v, p))
    && Beyond(table, n, k + Size(v), p + Len(v))
  }

  lemma {:induction false} HoldsWithin(
    table: seq<Token>, n: nat, doc: Value, p0: nat, k0: nat, v: Value, p: nat, k: nat)
    requires Holds(table, n, doc, p0, k0) && Occurs(doc, p0, k0, v, p, k)
    ensures Holds(table, n, v, p, k)
    decreases doc
  {
    if !(doc == v && p0 == p && k0 == k) {
      match doc
      case Arr(g, items) =>
        AtSplit(table, k0, [ValueTokens(doc, p0)[0]], ItemTokens(items, p0 + 1 + |g|));
        HoldsWithinItems(table, n, items, p0 + 1 + |g|, k0 + 1, v, p, k);
      case Obj(g, ms) =>
        AtSplit(table, k0, [ValueTokens(doc, p0)[0]], MemberTokens(ms, p0 + 1 + |g|));
        HoldsWithinMembers(table, n, ms, p0 + 1 + |g|, k0 + 1, v, p, k);
    }
  }

  lemma {:induction false} HoldsWithinItems(
    table: seq<Token>, n: nat, items: Items, p0: nat, k0: nat, v: Value, p: nat, k: nat)
    requires n < |table| && k0 + ItemsSize(items) <= n && At(table, k0, ItemTokens(items, p0))
    requires Beyond(table, n, k0 + ItemsSize(items), p0 + ItemsLen(items))
    requires OccursInItems(items, p0, k0, v, p, k)
    ensures Holds(table, n, v, p, k)
    decreases items
  {
    hide Len, Size, ValueTokens, Spells;
    var q, head := p0 + |items.before|, items.value;
    var q', k' := q + Len(head) + |items.after| + 1, k0 + Size(head);
    AtSplit(table, k0, ValueTokens(head, q), ItemTokens(items.rest, q'));
    HeadAndInner(table, k0, head, q);
    ItemTokensSize(items.rest, q');
    ItemTokensBounds(items.rest, q');
    if OccursInItems(items.rest, q', k', v, p, k) {
      HoldsWithinItems(table, n, items.rest, q', k', v, p, k);
    } else {
      forall i | k' <= i < n ensures table[i].start > q + Len(head) {
        if i < k' + ItemsSize(items.rest) { assert table[i] == ItemTokens(items.rest, q')[i - k']; }
      }
      HoldsWithin(table, n, head, q, k0, v, p, k);
    }
  }

  lemma {:induction false} HoldsWithinMembers(
    table: seq<Token>, n: nat, ms: Members, p0: nat, k0: nat, v: Value, p: nat, k: nat)
    requires n < |table| && k0 + MembersSize(ms) <= n && At(table, k0, MemberTokens(ms, p0))
    requires Beyond(table, n, k0 + MembersSize(ms), p0 + MembersLen(ms))
    requires OccursInMembers(ms, p0, k0, v, p, k)
    ensures Holds(table, n, v, p, k)
    decreases ms
  {
    hide ValueTokens, Len, SpellsKey, KeyToken;
    var q, head := ValueAt(ms, p0), ms.value;
    var q', k' := q + Len(head) + |ms.w4| + 1, k0 + 1 + Size(head);
    KeyAndValue(table, k0, ms, p0);
    HeadAndInner(table, k0 + 1, head, q);
    MemberTokensSize(ms.rest, q');
    MemberTokensBounds(ms.rest, q');
    if OccursInMembers(ms.rest, q', k', v, p, k) {
      HoldsWithinMembers(table, n, ms.rest, q', k', v, p, k);
    } else {
      forall i | k' <= i < n ensures table[i].start > q + Len(head) {
        if i < k' + MembersSize(ms.rest) { assert table[i] == MemberTokens(ms.rest, q')[i - k']; }
      }
      HoldsWithin(table, n, head, q, k0 + 1, v, p, k);
    }
  }

  /** The spans below an array give back its items, whatever stands around it. */
  lemma ArrayElementsAreItems(table: seq<Token>, n: nat, g: bytes, items: Items, p: nat, k: nat)
    requires Holds(table, n, Arr(g, items), p, k)
    ensures k <= n && ArrayElements(table, n, k) == ItemIndices(items, k + 1)
  {
    var v := Arr(g, items);
    HeadAndInner(table, k, v, p);
    AtSplit(table, k, [ValueTokens(v, p)[0]], ItemTokens(items, p + 1 + |g|));
    assert table[k] == ValueTokens(v, p)[0];
    TopsAreItems(table, n, items, p + 1 + |g|, k + 1, table[k].end, table[k].start);
  }

  /** The spans below an object give back its keys. */
  lemma ObjectKeysAreMembers(table: seq<Token>, n: nat, g: bytes, ms: Members, p: nat, k: nat)
    requires Holds(table, n, Obj(g, ms), p, k)
    ensures k <= n && ObjectKeys(table, n, k) == KeyIndices(ms, k + 1)
  {
    var v := Obj(g, ms);
    HeadAndInner(table, k, v, p);
    AtSplit(table, k, [ValueTokens(v, p)[0]], MemberTokens(ms, p + 1 + |g|));
    assert table[k] == ValueTokens(v, p)[0];
    KeysAreMembers(table, n, ms, p + 1 + |g|, k + 1, table[k].end, table[k].start);
  }

  // ---------------------------------------------------------------- looking up a key

  /** A node of a document: the value, where it is spelled, and its token. */
  datatype Node = Node(value: Value, p: nat, k: nat)

  /** The value of the first member with that name. */
  function Find(ms: Members, name: bytes, p: nat, k: nat): Option<Node> {
    if ms.NoMember? then None
    else if ms.key == name then Some(Node(ms.value, ValueAt(ms, p), k + 1))
    else Find(ms.rest, name, ValueAt(ms, p) + Len(ms.value) + |ms.w4| + 1, k + 1 + Size(ms.value))
  }

  lemma NamesKey(js: bytes, p: nat, ms: Members, name: bytes)
    requires ms.Member? && SpellsKey(js, p, ms)
    ensures Names(js, KeyToken(ms, p, 1), name) <==> ms.key == name
  {
    var at := KeyAt(ms, p) + 1;
    if |name| == |ms.key| && At(js, at, name) {
      forall i | 0 <= i < |name| ensures name[i] == ms.key[i] { assert js[at + i] == ms.key[i]; }
    }
  }

  lemma {:induction false} LookupIsFind(js: bytes, table: seq<Token>, ms: Members, p: nat, k: nat, name: bytes)
    requires At(table, k, MemberTokens(ms, p)) && SpellsMembers(js, p, ms)
    ensures var found := Find(ms, name, p, k);
      Lookup(js, table, KeyIndices(ms, k), name) == if found.None? then None else Some(found.value.k - 1)
    ensures Find(ms, name, p, k).Some? ==> Find(ms, name, p, k).value.k > k
    decreases ms
  {
    hide SpellsKey, Names, At, ValueTokens;
    if ms.Member? {
      var q := ValueAt(ms, p) + Len(ms.value) + |ms.w4| + 1;
      KeyAndValue(table, k, ms, p);
      TokensSize(ms.value, ValueAt(ms, p));
      NamesKey(js, p, ms, name);
      assert KeyIndices(ms, k)[1..] == KeyIndices(ms.rest, k + 1 + Size(ms.value));
      if ms.key != name && ms.rest.Member? {
        LookupIsFind(js, table, ms.rest, q, k + 1 + Size(ms.value), name);
      }
    }
  }

  lemma {:induction false} FindOccurs(ms: Members, name: bytes, p: nat, k: nat)
    requires Find(ms, name, p, k).Some?
    ensures var node := Find(ms, name, p, k).value; OccursInMembers(ms, p, k, node.value, node.p, node.k)
    decreases ms
  {
    if ms.key != name {
      FindOccurs(ms.rest, name, ValueAt(ms, p) + Len(ms.value) + |ms.w4| + 1, k + 1 + Size(ms.value));
    }
  }
}
