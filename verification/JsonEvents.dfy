/**
 * The scan in two halves. `Lex` turns the text into events without looking at tokens, `Build` turns
 * events into tokens without looking at the text, and the one-pass scan is their composition.
 */
module JsonEvents {
  import opened Bytes
  import opened Jsmn
  import opened JsonTree

  datatype Event = Begin(kind: Kind, at: nat) | End(kind: Kind, at: nat) | Leaf(tok: Token) | Colon | Comma

  datatype Events = Stop(error: Option<Error>) | More(event: Event, rest: Events)

  function Lex(js: bytes, i: nat): Events
    decreases |js| - i
  {
    if AtEnd(js, i) then Stop(None)
    else
      var c := js[i];
      if c == LBRACE then More(Begin(Object, i), Lex(js, i + 1))
      else if c == LBRACKET then More(Begin(Array, i), Lex(js, i + 1))
      else if c == RBRACE then More(End(Object, i), Lex(js, i + 1))
      else if c == RBRACKET then More(End(Array, i), Lex(js, i + 1))
      else if c == QUOTE then
        match StringStop(js, i + 1)
        case Bad(e) => Stop(Some(e))
        case Found(q) => More(Leaf(Token(String, i + 1, q, 0)), Lex(js, q + 1))
      else if c == COLON then More(Colon, Lex(js, i + 1))
      else if c == COMMA then More(Comma, Lex(js, i + 1))
      else if IsSpace(c) then Lex(js, i + 1)
      else
        match PrimitiveStop(js, i)
        case Bad(e) => Stop(Some(e))
        case Found(q) => More(Leaf(Token(Primitive, i, q, 0)), Lex(js, q))
  }

  datatype Built = Ok(toks: seq<Token>) | Err(error: Error)

  /** `top` is the parent that the next token counts for. */
  function Build(es: Events, max: nat, toks: seq<Token>, top: int): Built
    requires -1 <= top < |toks|
  {
    match es
    case Stop(None) => Ok(toks)
    case Stop(Some(e)) => Err(e)
    case More(Begin(kind, at), rest) =>
      if |toks| >= max then Err(NoMem)
      else Build(rest, max, Grow(toks, top, 1) + [Token(kind, at, -1, 0)], |toks|)
    case More(End(kind, at), rest) =>
      var i := LastOpen(toks);
      if i == -1 || toks[i].kind != kind then Err(Inval)
      else
        var toks' := toks[i := toks[i].(end := at + 1)];
        Build(rest, max, toks', LastOpen(toks'))
    case More(Leaf(tok), rest) =>
      if |toks| >= max then Err(NoMem) else Build(rest, max, Grow(toks, top, 1) + [tok], top)
    case More(Colon, rest) => Build(rest, max, toks, |toks| - 1)
    case More(Comma, rest) =>
      Build(rest, max, toks,
        if top != -1 && !IsContainer(toks[top].kind) && LastOpen(toks) != -1 then LastOpen(toks) else top)
  }

  lemma StepIsBuild(js: bytes, max: nat, st: State)
    requires -1 <= st.super < |st.toks| && !AtEnd(js, st.pos)
    ensures var step := Step(js, max, st);
      Build(Lex(js, st.pos), max, st.toks, st.super)
      == if step.Fail? then Err(step.error)
         else Build(Lex(js, step.state.pos), max, step.state.toks, step.state.super)
  {
  }

  lemma {:induction false} ScanIsBuild(js: bytes, max: nat, st: State)
    requires -1 <= st.super < |st.toks|
    ensures var scan := Scan(js, max, st);
      Build(Lex(js, st.pos), max, st.toks, st.super) == if scan.Fail? then Err(scan.error) else Ok(scan.state.toks)
    decreases |js| - st.pos
  {
    if !AtEnd(js, st.pos) {
      StepIsBuild(js, max, st);
      if Step(js, max, st).Done? { ScanIsBuild(js, max, Step(js, max, st).state); }
    }
  }

  // ---------------------------------------------------------------- the events of a value, in front of others

  function ValueEvents(v: Value, p: nat, k: Events): Events
    decreases v, 0
  {
    match v
    case Str(b) => More(Leaf(Token(String, p + 1, p + 1 + |b|, 0)), k)
    case Prim(t) => More(Leaf(Token(Primitive, p, p + |t|, 0)), k)
    case Arr(g, items) => More(Begin(Array, p), ItemEvents(items, p + 1 + |g|, k))
    case Obj(g, ms) => More(Begin(Object, p), MemberEvents(ms, p + 1 + |g|, k))
  }

  function ItemEnd(items: Items, p: nat): nat
    requires items.Item?
  {
    p + |items.before| + Len(items.value) + |items.after|
  }

  /** Up to and including the closing bracket. */
  function ItemEvents(items: Items, p: nat, k: Events): Events
    decreases items, 0
  {
    if items.NoItem? then More(End(Array, p), k)
    else ValueEvents(items.value, p + |items.before|, MoreItemEvents(items.rest, ItemEnd(items, p), k))
  }

  function MoreItemEvents(rest: Items, q: nat, k: Events): Events
    decreases rest, 1
  {
    if rest.NoItem? then More(End(Array, q), k) else More(Comma, ItemEvents(rest, q + 1, k))
  }

  function MemberEnd(ms: Members, p: nat): nat
    requires ms.Member?
  {
    ValueAt(ms, p) + Len(ms.value) + |ms.w4|
  }

  function MemberEvents(ms: Members, p: nat, k: Events): Events
    decreases ms, 0
  {
    if ms.NoMember? then More(End(Object, p), k)
    else
      var k' := MoreMemberEvents(ms.rest, MemberEnd(ms, p), k);
      More(Leaf(KeyToken(ms, p, 0)), More(Colon, ValueEvents(ms.value, ValueAt(ms, p), k')))
  }

  function MoreMemberEvents(rest: Members, q: nat, k: Events): Events
    decreases rest, 1
  {
    if rest.NoMember? then More(End(Object, q), k) else More(Comma, MemberEvents(rest, q + 1, k))
  }

  // ---------------------------------------------------------------- the first half

  /** A guard: facts about `Lex` are used at the places that name them, and `Lex` is not unfolded elsewhere. */
  predicate Reading(js: bytes, i: nat) { true }

  /** From `p` on, the text gives these events. */
  ghost predicate Lexes(js: bytes, p: nat, es: Events) {
    forall i: nat {:trigger Reading(js, i)} :: Reading(js, i) && i == p ==> Lex(js, i) == es
  }

  lemma LexesIs(js: bytes, p: nat, es: Events)
    ensures Lexes(js, p, es) <==> Lex(js, p) == es
  {
    assert Reading(js, p);
  }

  lemma {:induction false} LexBlank(js: bytes, p: nat, w: bytes, k: Events)
    requires At(js, p, w) && IsBlank(w) && Lexes(js, p + |w|, k)
    ensures Lexes(js, p, k)
    decreases |w|
  {
    if w != [] {
      AtIndex(js, p, w, 0);
      assert w == [w[0]] + w[1..];
      AtSplit(js, p, [w[0]], w[1..]);
      LexBlank(js, p + 1, w[1..], k);
      LexesIs(js, p + 1, k);
    }
  }

  /** A bracket or a separator, as one event. */
  function EventOf(c: byte, p: nat): Option<Event> {
    if c == LBRACE then Some(Begin(Object, p))
    else if c == LBRACKET then Some(Begin(Array, p))
    else if c == RBRACE then Some(End(Object, p))
    else if c == RBRACKET then Some(End(Array, p))
    else if c == COLON then Some(Colon)
    else if c == COMMA then Some(Comma)
    else None
  }

  lemma LexOne(js: bytes, p: nat, c: byte, k: Events)
    requires Is(js, p, c) && EventOf(c, p).Some? && Lexes(js, p + 1, k)
    ensures Lexes(js, p, More(EventOf(c, p).value, k))
  {
    LexesIs(js, p + 1, k);
  }

  lemma {:induction false} StopAtQuote(js: bytes, i: nat, body: bytes)
    requires IsBody(body) && At(js, i, body) && Is(js, i + |body|, QUOTE)
    ensures StringStop(js, i) == Found(i + |body|)
    decreases |body|
  {
    hide At;
    if body == [] {
    } else {
      var n := if body[0] != 92 then 1 else if IsEscapeLetter(body[1]) then 2 else 6;
      assert body == body[..n] + body[n..];
      AtSplit(js, i, body[..n], body[n..]);
      forall j | 0 <= j < n ensures js[i + j] == body[j] { AtIndex(js, i, body[..n], j); }
      StopAtQuote(js, i + n, body[n..]);
      if n == 6 {
        assert HexStop(js, i + 2, 4) == HexStop(js, i + 3, 3) == HexStop(js, i + 4, 2);
        assert HexStop(js, i + 4, 2) == HexStop(js, i + 5, 1) == HexStop(js, i + 6, 0);
      }
    }
  }

  /** What must stand behind a literal for it to end there. */
  predicate EndsLiteral(js: bytes, i: nat) { AtEnd(js, i) || IsDelimiter(js[i]) }

  lemma {:induction false} StopAfterLiteral(js: bytes, i: nat, t: bytes)
    requires At(js, i, t) && EndsLiteral(js, i + |t|)
    requires forall k :: 0 <= k < |t| ==> IsLiteralChar(t[k])
    ensures PrimitiveStop(js, i) == Found(i + |t|)
    decreases |t|
  {
    if t == [] {
    } else {
      AtIndex(js, i, t, 0);
      assert t == [t[0]] + t[1..];
      AtSplit(js, i, [t[0]], t[1..]);
      StopAfterLiteral(js, i + 1, t[1..]);
    }
  }

  lemma LexString(js: bytes, p: nat, body: bytes, k: Events)
    requires Is(js, p, QUOTE) && At(js, p + 1, body) && Is(js, p + 1 + |body|, QUOTE) && IsBody(body)
    requires Lexes(js, p + |body| + 2, k)
    ensures Lexes(js, p, More(Leaf(Token(String, p + 1, p + 1 + |body|, 0)), k))
  {
    StopAtQuote(js, p + 1, body);
    LexesIs(js, p + |body| + 2, k);
  }

  lemma LexLiteral(js: bytes, p: nat, t: bytes, k: Events)
    requires At(js, p, t) && IsLiteral(t) && EndsLiteral(js, p + |t|) && Lexes(js, p + |t|, k)
    ensures Lexes(js, p, More(Leaf(Token(Primitive, p, p + |t|, 0)), k))
  {
    AtIndex(js, p, t, 0);
    StopAfterLiteral(js, p, t);
    LexesIs(js, p + |t|, k);
  }

  lemma {:induction false} LexValue(js: bytes, p: nat, v: Value, k: Events)
    requires IsValue(v) && Spells(js, p, v) && (v.Prim? ==> EndsLiteral(js, p + Len(v)))
    requires Lexes(js, p + Len(v), k)
    ensures Lexes(js, p, ValueEvents(v, p, k))
    decreases v, 0
  {
    hide Lexes, ItemEvents, MemberEvents, SpellsItems, SpellsMembers, IsLiteral, ItemsLen, MembersLen;
    match v
    case Str(b) => LexString(js, p, b, k);
    case Prim(t) => LexLiteral(js, p, t, k);
    case Arr(g, items) =>
      var es := ItemEvents(items, p + 1 + |g|, k);
      LexItems(js, p + 1 + |g|, items, k);
      LexBlank(js, p + 1, g, es);
      LexOne(js, p, LBRACKET, es);
    case Obj(g, ms) =>
      var es := MemberEvents(ms, p + 1 + |g|, k);
      LexMembers(js, p + 1 + |g|, ms, k);
      LexBlank(js, p + 1, g, es);
      LexOne(js, p, LBRACE, es);
  }

  /** White space, then a delimiter: a literal in front of them ends. */
  lemma BlankEndsLiteral(js: bytes, p: nat, w: bytes)
    requires At(js, p, w) && IsBlank(w) && EndsLiteral(js, p + |w|)
    ensures EndsLiteral(js, p)
  {
    if w != [] { AtIndex(js, p, w, 0); }
  }

  lemma {:induction false} LexItems(js: bytes, p: nat, items: Items, k: Events)
    requires AreItems(items) && SpellsItems(js, p, items)
    requires Lexes(js, p + ItemsLen(items) + 1, k)
    ensures Lexes(js, p, ItemEvents(items, p, k))
    decreases items, 0
  {
    if items.NoItem? {
      LexOne(js, p, RBRACKET, k);
    } else {
      var b, v, a, q := items.before, items.value, items.after, ItemEnd(items, p);
      var k' := MoreItemEvents(items.rest, q, k);
      LexMoreItems(js, q, items.rest, k);
      BlankEndsLiteral(js, q - |a|, a);
      LexBlank(js, q - |a|, a, k');
      LexValue(js, p + |b|, v, k');
      LexBlank(js, p, b, ValueEvents(v, p + |b|, k'));
    }
  }

  lemma {:induction false} LexMoreItems(js: bytes, q: nat, rest: Items, k: Events)
    requires AreItems(rest)
    requires SpellsMoreItems(js, q, rest)
    requires Lexes(js, if rest.NoItem? then q + 1 else q + 1 + ItemsLen(rest) + 1, k)
    ensures Lexes(js, q, MoreItemEvents(rest, q, k))
    decreases rest, 1
  {
    if rest.NoItem? {
      LexOne(js, q, RBRACKET, k);
    } else {
      LexItems(js, q + 1, rest, k);
      LexOne(js, q, COMMA, ItemEvents(rest, q + 1, k));
    }
  }

  lemma {:induction false} LexMembers(js: bytes, p: nat, ms: Members, k: Events)
    requires AreMembers(ms) && SpellsMembers(js, p, ms)
    requires Lexes(js, p + MembersLen(ms) + 1, k)
    ensures Lexes(js, p, MemberEvents(ms, p, k))
    decreases ms, 0
  {
    if ms.NoMember? {
      LexOne(js, p, RBRACE, k);
    } else {
      var v, w4, q := ms.value, ms.w4, MemberEnd(ms, p);
      var k' := MoreMemberEvents(ms.rest, q, k);
      LexMoreMembers(js, q, ms.rest, k);
      BlankEndsLiteral(js, q - |w4|, w4);
      LexBlank(js, q - |w4|, w4, k');
      LexValue(js, ValueAt(ms, p), v, k');
      LexKey(js, p, ms, ValueEvents(v, ValueAt(ms, p), k'));
    }
  }

  lemma {:induction false} LexMoreMembers(js: bytes, q: nat, rest: Members, k: Events)
    requires AreMembers(rest)
    requires SpellsMoreMembers(js, q, rest)
    requires Lexes(js, if rest.NoMember? then q + 1 else q + 1 + MembersLen(rest) + 1, k)
    ensures Lexes(js, q, MoreMemberEvents(rest, q, k))
    decreases rest, 1
  {
    if rest.NoMember? {
      LexOne(js, q, RBRACE, k);
    } else {
      LexMembers(js, q + 1, rest, k);
      LexOne(js, q, COMMA, MemberEvents(rest, q + 1, k));
    }
  }

  lemma LexKey(js: bytes, p: nat, ms: Members, k: Events)
    requires ms.Member? && AreMembers(ms) && SpellsKey(js, p, ms) && Lexes(js, ValueAt(ms, p), k)
    ensures Lexes(js, p, More(Leaf(KeyToken(ms, p, 0)), More(Colon, k)))
  {
    var q := KeyAt(ms, p) + |ms.key| + 2;
    LexBlank(js, q + |ms.w2| + 1, ms.w3, k);
    LexOne(js, q + |ms.w2|, COLON, k);
    LexBlank(js, q, ms.w2, More(Colon, k));
    LexString(js, KeyAt(ms, p), ms.key, More(Colon, k));
    LexBlank(js, p, ms.w1, More(Leaf(KeyToken(ms, p, 0)), More(Colon, k)));
  }

  // ---------------------------------------------------------------- open and closed tokens

  predicate AllClosed(toks: seq<Token>) { forall i :: 0 <= i < |toks| ==> !IsOpen(toks[i]) }

  lemma ValueTokensClosed(v: Value, p: nat)
    ensures AllClosed(ValueTokens(v, p))
  {
    match v
    case Str(b) =>
    case Prim(t) =>
    case Arr(g, items) => ItemTokensClosed(items, p + 1 + |g|);
    case Obj(g, ms) => MemberTokensClosed(ms, p + 1 + |g|);
  }

  lemma ItemTokensClosed(items: Items, p: nat)
    ensures AllClosed(ItemTokens(items, p))
  {
    match items
    case NoItem =>
    case Item(b, v, a, rest) =>
      ValueTokensClosed(v, p + |b|);
      ItemTokensClosed(rest, p + |b| + Len(v) + |a| + 1);
  }

  lemma MemberTokensClosed(ms: Members, p: nat)
    ensures AllClosed(MemberTokens(ms, p))
  {
    match ms
    case NoMember =>
    case Member(_, _, _, _, v, w4, rest) =>
      ValueTokensClosed(v, ValueAt(ms, p));
      MemberTokensClosed(rest, ValueAt(ms, p) + Len(v) + |w4| + 1);
  }

  /** The tokens once the innermost container has taken `n` more children, `more`, and its closer at `p`. */
  function Closed(toks: seq<Token>, n: nat, more: seq<Token>, p: nat): seq<Token>
    requires LastOpen(toks) >= 0
  {
    var i := LastOpen(toks);
    toks[i := toks[i].(size := toks[i].size + n, end := p + 1)] + more
  }

  /** Closing the container just opened at `p` leaves its own tokens, and the outer containers as they were. */
  lemma ClosedOpener(toks: seq<Token>, top: int, kind: Kind, p: nat, n: nat, more: seq<Token>, end: nat)
    requires -1 <= top < |toks| && AllClosed(more)
    ensures var inner := Grow(toks, top, 1) + [Token(kind, p, -1, 0)];
      && LastOpen(inner) == |toks|
      && Closed(inner, n, more, end) == Grow(toks, top, 1) + ([Token(kind, p, end + 1, n)] + more)
      && LastOpen(Closed(inner, n, more, end)) == LastOpen(toks)
  {
    var inner := Grow(toks, top, 1) + [Token(kind, p, -1, 0)];
    LastOpenIs(toks, LastOpen(toks));
    LastOpenIs(inner, |toks|);
    var closed := Closed(inner, n, more, end);
    assert closed == Grow(toks, top, 1) + ([Token(kind, p, end + 1, n)] + more);
    LastOpenIs(closed, LastOpen(toks));
  }

  /** One more child with its own closed tokens, then `n` more: the same as `n + 1` at once. */
  lemma ClosedInTwo(toks: seq<Token>, first: seq<Token>, n: nat, more: seq<Token>, p: nat)
    requires LastOpen(toks) >= 0 && AllClosed(first)
    ensures var grown := Grow(toks, LastOpen(toks), 1) + first;
      && LastOpen(grown) == LastOpen(toks)
      && Closed(grown, n, more, p) == Closed(toks, n + 1, first + more, p)
  {
    LastOpenIs(toks, LastOpen(toks));
    LastOpenIs(Grow(toks, LastOpen(toks), 1) + first, LastOpen(toks));
  }

  // ---------------------------------------------------------------- the second half

  /** The same guard, for `Build`. */
  predicate Building(es: Events, max: nat) { true }

  /** With a table of `max` tokens these events, taken with `toks` allocated and the parent `top`, give `r`. */
  ghost predicate Builds(es: Events, max: nat, toks: seq<Token>, top: int, r: Built) {
    && -1 <= top < |toks|
    && forall m: nat {:trigger Building(es, m)} :: Building(es, m) && m == max ==> Build(es, m, toks, top) == r
  }

  lemma BuildsIs(es: Events, max: nat, toks: seq<Token>, top: int, r: Built)
    requires -1 <= top < |toks|
    ensures Builds(es, max, toks, top, r) <==> Build(es, max, toks, top) == r
  {
    assert Building(es, max);
  }

  lemma BuildBegin(kind: Kind, p: nat, k: Events, max: nat, toks: seq<Token>, top: int, r: Built)
    requires -1 <= top < |toks| < max
    requires Builds(k, max, Grow(toks, top, 1) + [Token(kind, p, -1, 0)], |toks|, r)
    ensures Builds(More(Begin(kind, p), k), max, toks, top, r)
  {
    BuildsIs(k, max, Grow(toks, top, 1) + [Token(kind, p, -1, 0)], |toks|, r);
  }

  lemma BuildLeaf(tok: Token, k: Events, max: nat, toks: seq<Token>, top: int, r: Built)
    requires -1 <= top < |toks| < max
    requires Builds(k, max, Grow(toks, top, 1) + [tok], top, r)
    ensures Builds(More(Leaf(tok), k), max, toks, top, r)
  {
    BuildsIs(k, max, Grow(toks, top, 1) + [tok], top, r);
  }

  lemma BuildColon(k: Events, max: nat, toks: seq<Token>, top: int, r: Built)
    requires -1 <= top < |toks| && Builds(k, max, toks, |toks| - 1, r)
    ensures Builds(More(Colon, k), max, toks, top, r)
  {
    BuildsIs(k, max, toks, |toks| - 1, r);
  }

  lemma BuildComma(k: Events, max: nat, toks: seq<Token>, top: int, r: Built)
    requires 0 <= top < |toks| && LastOpen(toks) >= 0
    requires IsContainer(toks[top].kind) ==> top == LastOpen(toks)
    requires Builds(k, max, toks, LastOpen(toks), r)
    ensures Builds(More(Comma, k), max, toks, top, r)
  {
    BuildsIs(k, max, toks, LastOpen(toks), r);
  }

  lemma BuildEnd(kind: Kind, p: nat, k: Events, max: nat, toks: seq<Token>, top: int, r: Built)
    requires -1 <= top < |toks| && LastOpen(toks) >= 0 && toks[LastOpen(toks)].kind == kind
    requires var closed := Closed(toks, 0, [], p); Builds(k, max, closed, LastOpen(closed), r)
    ensures Builds(More(End(kind, p), k), max, toks, top, r)
  {
    var closed := Closed(toks, 0, [], p);
    assert closed == toks[LastOpen(toks) := toks[LastOpen(toks)].(end := p + 1)];
    BuildsIs(k, max, closed, LastOpen(closed), r);
  }

  function After(v: Value, p: nat, toks: seq<Token>, top: int): seq<Token>
    requires -1 <= top < |toks|
  {
    Grow(toks, top, 1) + ValueTokens(v, p)
  }

  /** A container closed while it was the innermost one leaves its parent in force. */
  function TopAfter(v: Value, toks: seq<Token>, top: int): int {
    if v.Str? || v.Prim? then top else LastOpen(toks)
  }

  lemma {:induction false} BuildValue(v: Value, p: nat, k: Events, max: nat, toks: seq<Token>, top: int, r: Built)
    requires -1 <= top < |toks| && |toks| + |ValueTokens(v, p)| <= max
    requires Builds(k, max, After(v, p, toks, top), TopAfter(v, toks, top), r)
    ensures Builds(ValueEvents(v, p, k), max, toks, top, r)
    decreases v, 0
  {
    match v
    case Str(b) => BuildLeaf(Token(String, p + 1, p + 1 + |b|, 0), k, max, toks, top, r);
    case Prim(t) => BuildLeaf(Token(Primitive, p, p + |t|, 0), k, max, toks, top, r);
    case Arr(g, items) => BuildArray(g, items, p, k, max, toks, top, r);
    case Obj(g, ms) => BuildObject(g, ms, p, k, max, toks, top, r);
  }

  lemma {:induction false} BuildArray(
    g: bytes, items: Items, p: nat, k: Events, max: nat, toks: seq<Token>, top: int, r: Built)
    requires -1 <= top < |toks| && |toks| + |ValueTokens(Arr(g, items), p)| <= max
    requires Builds(k, max, After(Arr(g, items), p, toks, top), LastOpen(toks), r)
    ensures Builds(More(Begin(Array, p), ItemEvents(items, p + 1 + |g|, k)), max, toks, top, r)
    decreases items, 3
  {
    hide Builds, LastOpen, ItemEvents, ItemTokens, Closed, ItemsLen, Count;
    var q := p + 1 + |g|;
    ItemTokensClosed(items, q);
    ClosedOpener(toks, top, Array, p, Count(items), ItemTokens(items, q), q + ItemsLen(items));
    BuildItems(items, q, k, max, Grow(toks, top, 1) + [Token(Array, p, -1, 0)], r);
    BuildBegin(Array, p, ItemEvents(items, q, k), max, toks, top, r);
  }

  lemma {:induction false} BuildObject(
    g: bytes, ms: Members, p: nat, k: Events, max: nat, toks: seq<Token>, top: int, r: Built)
    requires -1 <= top < |toks| && |toks| + |ValueTokens(Obj(g, ms), p)| <= max
    requires Builds(k, max, After(Obj(g, ms), p, toks, top), LastOpen(toks), r)
    ensures Builds(More(Begin(Object, p), MemberEvents(ms, p + 1 + |g|, k)), max, toks, top, r)
    decreases ms, 2
  {
    hide Builds, LastOpen, MemberEvents, MemberTokens, Closed, MembersLen, Pairs;
    var q := p + 1 + |g|;
    MemberTokensClosed(ms, q);
    ClosedOpener(toks, top, Object, p, Pairs(ms), MemberTokens(ms, q), q + MembersLen(ms));
    BuildMembers(ms, q, k, max, Grow(toks, top, 1) + [Token(Object, p, -1, 0)], r);
    BuildBegin(Object, p, MemberEvents(ms, q, k), max, toks, top, r);
  }

  function AfterItem(items: Items, p: nat, toks: seq<Token>): seq<Token>
    requires items.Item? && LastOpen(toks) >= 0
  {
    Grow(toks, LastOpen(toks), 1) + ValueTokens(items.value, p + |items.before|)
  }

  /** Taking one item, then closing after the rest, is closing after them all. */
  lemma ItemTaken(items: Items, p: nat, toks: seq<Token>)
    requires items.Item? && LastOpen(toks) >= 0
    ensures var next := AfterItem(items, p, toks);
      && LastOpen(next) == LastOpen(toks) && next[LastOpen(next)].kind == toks[LastOpen(toks)].kind
      && |next| == |toks| + |ValueTokens(items.value, p + |items.before|)|
      && Closed(next, Count(items.rest), ItemTokens(items.rest, ItemEnd(items, p) + 1), p + ItemsLen(items))
         == Closed(toks, Count(items), ItemTokens(items, p), p + ItemsLen(items))
  {
    var first := ValueTokens(items.value, p + |items.before|);
    ValueTokensClosed(items.value, p + |items.before|);
    ClosedInTwo(toks, first, Count(items.rest), ItemTokens(items.rest, ItemEnd(items, p) + 1), p + ItemsLen(items));
  }

  lemma {:induction false} BuildItems(items: Items, p: nat, k: Events, max: nat, toks: seq<Token>, r: Built)
    requires LastOpen(toks) >= 0 && toks[LastOpen(toks)].kind == Array
    requires |toks| + |ItemTokens(items, p)| <= max
    requires var closed := Closed(toks, Count(items), ItemTokens(items, p), p + ItemsLen(items));
      Builds(k, max, closed, LastOpen(closed), r)
    ensures Builds(ItemEvents(items, p, k), max, toks, LastOpen(toks), r)
    decreases items, 1
  {
    hide Builds, LastOpen, MoreItemEvents, ValueTokens, ValueEvents;
    if items.NoItem? {
      BuildEnd(Array, p, k, max, toks, LastOpen(toks), r);
    } else {
      var q := ItemEnd(items, p);
      ItemTaken(items, p, toks);
      BuildMoreItems(items.rest, q, k, max, AfterItem(items, p, toks), r);
      BuildItem(items, p, MoreItemEvents(items.rest, q, k), max, toks, r);
    }
  }

  lemma {:induction false} BuildItem(items: Items, p: nat, k: Events, max: nat, toks: seq<Token>, r: Built)
    requires items.Item? && LastOpen(toks) >= 0 && |AfterItem(items, p, toks)| <= max
    requires Builds(k, max, AfterItem(items, p, toks), LastOpen(toks), r)
    ensures Builds(ValueEvents(items.value, p + |items.before|, k), max, toks, LastOpen(toks), r)
    decreases items, 0
  {
    BuildValue(items.value, p + |items.before|, k, max, toks, LastOpen(toks), r);
  }

  /** Behind an item: the closer, or a comma and the other items. */
  lemma {:induction false} BuildMoreItems(rest: Items, q: nat, k: Events, max: nat, toks: seq<Token>, r: Built)
    requires LastOpen(toks) >= 0 && toks[LastOpen(toks)].kind == Array
    requires |toks| + |ItemTokens(rest, q + 1)| <= max
    requires var end := if rest.NoItem? then q else q + 1 + ItemsLen(rest);
      var closed := Closed(toks, Count(rest), ItemTokens(rest, q + 1), end);
      Builds(k, max, closed, LastOpen(closed), r)
    ensures Builds(MoreItemEvents(rest, q, k), max, toks, LastOpen(toks), r)
    decreases rest, 2
  {
    if rest.NoItem? {
      BuildEnd(Array, q, k, max, toks, LastOpen(toks), r);
    } else {
      BuildItems(rest, q + 1, k, max, toks, r);
      BuildComma(ItemEvents(rest, q + 1, k), max, toks, LastOpen(toks), r);
    }
  }

  /** The tokens behind one key and its value. */
  function AfterMember(ms: Members, p: nat, toks: seq<Token>): seq<Token>
    requires ms.Member? && LastOpen(toks) >= 0
  {
    Grow(toks, LastOpen(toks), 1) + ([KeyToken(ms, p, 1)] + ValueTokens(ms.value, ValueAt(ms, p)))
  }

  lemma MemberTaken(ms: Members, p: nat, toks: seq<Token>)
    requires ms.Member? && LastOpen(toks) >= 0
    ensures var next := AfterMember(ms, p, toks);
      && LastOpen(next) == LastOpen(toks) && next[LastOpen(next)].kind == toks[LastOpen(toks)].kind
      && next[|toks|].kind == String && |next| == |toks| + 1 + |ValueTokens(ms.value, ValueAt(ms, p))|
      && Closed(next, Pairs(ms.rest), MemberTokens(ms.rest, MemberEnd(ms, p) + 1), p + MembersLen(ms))
         == Closed(toks, Pairs(ms), MemberTokens(ms, p), p + MembersLen(ms))
  {
    var first := [KeyToken(ms, p, 1)] + ValueTokens(ms.value, ValueAt(ms, p));
    ValueTokensClosed(ms.value, ValueAt(ms, p));
    ClosedInTwo(toks, first, Pairs(ms.rest), MemberTokens(ms.rest, MemberEnd(ms, p) + 1), p + MembersLen(ms));
  }

  /** A key and its value; the parent left behind is the key or the object. */
  lemma {:induction false} BuildMember(ms: Members, p: nat, k: Events, max: nat, toks: seq<Token>, r: Built)
    requires ms.Member? && LastOpen(toks) >= 0
    requires |toks| + 1 + |ValueTokens(ms.value, ValueAt(ms, p))| <= max
    requires var next := AfterMember(ms, p, toks);
      Builds(k, max, next, |toks|, r) && Builds(k, max, next, LastOpen(toks), r)
    ensures Builds(More(Leaf(KeyToken(ms, p, 0)), More(Colon, ValueEvents(ms.value, ValueAt(ms, p), k))),
                   max, toks, LastOpen(toks), r)
    decreases ms, 0
  {
    var at, obj := ValueAt(ms, p), LastOpen(toks);
    var keyed := Grow(toks, obj, 1) + [KeyToken(ms, p, 0)];
    assert After(ms.value, at, keyed, |toks|) == AfterMember(ms, p, toks);
    LastOpenIs(toks, obj);
    LastOpenIs(keyed, obj);
    BuildValue(ms.value, at, k, max, keyed, |toks|, r);
    BuildColon(ValueEvents(ms.value, at, k), max, keyed, obj, r);
    BuildLeaf(KeyToken(ms, p, 0), More(Colon, ValueEvents(ms.value, at, k)), max, toks, obj, r);
  }

  lemma {:induction false} BuildMembers(ms: Members, p: nat, k: Events, max: nat, toks: seq<Token>, r: Built)
    requires LastOpen(toks) >= 0 && toks[LastOpen(toks)].kind == Object
    requires |toks| + |MemberTokens(ms, p)| <= max
    requires var closed := Closed(toks, Pairs(ms), MemberTokens(ms, p), p + MembersLen(ms));
      Builds(k, max, closed, LastOpen(closed), r)
    ensures Builds(MemberEvents(ms, p, k), max, toks, LastOpen(toks), r)
    decreases ms, 1
  {
    hide Builds, LastOpen, MoreMemberEvents, ValueTokens, ValueEvents;
    if ms.NoMember? {
      BuildEnd(Object, p, k, max, toks, LastOpen(toks), r);
    } else {
      var q, next := MemberEnd(ms, p), AfterMember(ms, p, toks);
      MemberTaken(ms, p, toks);
      BuildMoreMembers(ms.rest, q, k, max, next, |toks|, r);
      BuildMoreMembers(ms.rest, q, k, max, next, LastOpen(toks), r);
      BuildMember(ms, p, MoreMemberEvents(ms.rest, q, k), max, toks, r);
    }
  }

  lemma {:induction false} BuildMoreMembers(
    rest: Members, q: nat, k: Events, max: nat, toks: seq<Token>, top: nat, r: Built)
    requires LastOpen(toks) >= 0 && toks[LastOpen(toks)].kind == Object
    requires top < |toks| && (top == LastOpen(toks) || toks[top].kind == String)
    requires |toks| + |MemberTokens(rest, q + 1)| <= max
    requires var end := if rest.NoMember? then q else q + 1 + MembersLen(rest);
      var closed := Closed(toks, Pairs(rest), MemberTokens(rest, q + 1), end);
      Builds(k, max, closed, LastOpen(closed), r)
    ensures Builds(MoreMemberEvents(rest, q, k), max, toks, top, r)
    decreases rest, 2
  {
    if rest.NoMember? {
      BuildEnd(Object, q, k, max, toks, top, r);
    } else {
      BuildMembers(rest, q + 1, k, max, toks, r);
      BuildComma(MemberEvents(rest, q + 1, k), max, toks, top, r);
    }
  }

  // ---------------------------------------------------------------- a whole document

  lemma IsFirst(js: bytes, p: nat, c: byte, rest: bytes)
    requires At(js, p, [c] + rest)
    ensures Is(js, p, c) && At(js, p + 1, rest)
  {
    AtSplit(js, p, [c], rest);
    assert [c][0] == js[p];
  }

  lemma IsOnly(js: bytes, p: nat, c: byte)
    requires At(js, p, [c])
    ensures Is(js, p, c)
  {
    assert [c][0] == js[p];
  }

  lemma QuotedSpells(js: bytes, p: nat, b: bytes)
    requires At(js, p, Quoted(b))
    ensures Spells(js, p, Str(b))
  {
    IsFirst(js, p, QUOTE, b + [QUOTE]);
    AtSplit(js, p + 1, b, [QUOTE]);
    IsOnly(js, p + 1 + |b|, QUOTE);
  }

  lemma SplitIn3(js: bytes, p: nat, a: bytes, b: bytes, c: bytes, d: bytes)
    requires At(js, p, a + (b + (c + d))) || (a == [] && At(js, p, b + (c + d)))
    ensures At(js, p, a) && At(js, p + |a|, b) && At(js, p + |a| + |b|, c) && At(js, p + |a| + |b| + |c|, d)
  {
    if At(js, p, a + (b + (c + d))) { AtSplit(js, p, a, b + (c + d)); }
    AtSplit(js, p + |a|, b, c + d);
    AtSplit(js, p + |a| + |b|, c, d);
  }

  lemma {:induction false} TextSpells(js: bytes, p: nat, v: Value)
    requires At(js, p, Text(v))
    ensures Spells(js, p, v) && |Text(v)| == Len(v)
    decreases v, 0
  {
    match v
    case Str(b) => QuotedSpells(js, p, b);
    case Prim(t) =>
    case Arr(g, items) =>
      IsFirst(js, p, LBRACKET, g + ItemsText(items));
      AtSplit(js, p + 1, g, ItemsText(items));
      ItemsTextSpells(js, p + 1 + |g|, items);
    case Obj(g, ms) =>
      IsFirst(js, p, LBRACE, g + MembersText(ms));
      AtSplit(js, p + 1, g, MembersText(ms));
      MembersTextSpells(js, p + 1 + |g|, ms);
  }

  lemma {:induction false} ItemsTextSpells(js: bytes, p: nat, items: Items)
    requires At(js, p, ItemsText(items))
    ensures SpellsItems(js, p, items) && |ItemsText(items)| == ItemsLen(items) + 1
    decreases items, 0
  {
    match items
    case NoItem => IsOnly(js, p, RBRACKET);
    case Item(b, v, a, rest) =>
      SplitIn3(js, p, b, Text(v), a, MoreItemsText(rest));
      TextSpells(js, p + |b|, v);
      MoreItemsTextSpells(js, p + |b| + |Text(v)| + |a|, rest);
  }

  lemma {:induction false} MoreItemsTextSpells(js: bytes, q: nat, rest: Items)
    requires At(js, q, MoreItemsText(rest))
    ensures SpellsMoreItems(js, q, rest)
    ensures |MoreItemsText(rest)| == if rest.NoItem? then 1 else 2 + ItemsLen(rest)
    decreases rest, 1
  {
    if rest.NoItem? {
      IsOnly(js, q, RBRACKET);
    } else {
      IsFirst(js, q, COMMA, ItemsText(rest));
      ItemsTextSpells(js, q + 1, rest);
    }
  }

  lemma KeyTextSpells(js: bytes, p: nat, ms: Members, padded: bytes)
    requires ms.Member?
    requires At(js, p, ms.w1 + (Quoted(ms.key) + (ms.w2 + ([COLON] + (ms.w3 + padded)))))
    ensures SpellsKey(js, p, ms) && At(js, ValueAt(ms, p), padded)
  {
    var k := KeyAt(ms, p);
    var q := k + |ms.key| + 2;
    AtSplit(js, p, ms.w1, Quoted(ms.key) + (ms.w2 + ([COLON] + (ms.w3 + padded))));
    AtSplit(js, k, Quoted(ms.key), ms.w2 + ([COLON] + (ms.w3 + padded)));
    QuotedSpells(js, k, ms.key);
    AtSplit(js, q, ms.w2, [COLON] + (ms.w3 + padded));
    IsFirst(js, q + |ms.w2|, COLON, ms.w3 + padded);
    AtSplit(js, q + |ms.w2| + 1, ms.w3, padded);
  }

  lemma {:induction false} MembersTextSpells(js: bytes, p: nat, ms: Members)
    requires At(js, p, MembersText(ms))
    ensures SpellsMembers(js, p, ms) && |MembersText(ms)| == MembersLen(ms) + 1
    decreases ms, 0
  {
    hide At, Spells, IsBlank;
    match ms
    case NoMember => IsOnly(js, p, RBRACE);
    case Member(w1, k, w2, w3, v, w4, rest) =>
      var at := ValueAt(ms, p);
      KeyTextSpells(js, p, ms, Text(v) + (w4 + MoreMembersText(rest)));
      SplitIn3(js, at, [], Text(v), w4, MoreMembersText(rest));
      TextSpells(js, at, v);
      MoreMembersTextSpells(js, at + |Text(v)| + |w4|, rest);
  }

  lemma {:induction false} MoreMembersTextSpells(js: bytes, q: nat, rest: Members)
    requires At(js, q, MoreMembersText(rest))
    ensures SpellsMoreMembers(js, q, rest)
    ensures |MoreMembersText(rest)| == if rest.NoMember? then 1 else 2 + MembersLen(rest)
    decreases rest, 1
  {
    if rest.NoMember? {
      IsOnly(js, q, RBRACE);
    } else {
      IsFirst(js, q, COMMA, MembersText(rest));
      MembersTextSpells(js, q + 1, rest);
    }
  }

  /** A table too small for the tokens of an accepted text is reported as such. */
  lemma {:induction false} BuildTooSmall(es: Events, big: nat, max: nat, toks: seq<Token>, top: int)
    requires -1 <= top < |toks| <= max
    requires Build(es, big, toks, top).Ok? && max < |Build(es, big, toks, top).toks|
    ensures Build(es, max, toks, top) == Err(NoMem)
    decreases es
  {
    match es
    case Stop(_) =>
    case More(Begin(kind, at), rest) =>
      if |toks| < max { BuildTooSmall(rest, big, max, Grow(toks, top, 1) + [Token(kind, at, -1, 0)], |toks|); }
    case More(End(kind, at), rest) =>
      var closed := toks[LastOpen(toks) := toks[LastOpen(toks)].(end := at + 1)];
      BuildTooSmall(rest, big, max, closed, LastOpen(closed));
    case More(Leaf(tok), rest) =>
      if |toks| < max { BuildTooSmall(rest, big, max, Grow(toks, top, 1) + [tok], top); }
    case More(Colon, rest) => BuildTooSmall(rest, big, max, toks, |toks| - 1);
    case More(Comma, rest) =>
      BuildTooSmall(rest, big, max, toks,
        if top != -1 && !IsContainer(toks[top].kind) && LastOpen(toks) != -1 then LastOpen(toks) else top);
  }

  lemma BuildDocument(js: bytes, p: nat, v: Value, after: bytes, max: nat)
    requires IsValue(v) && Spells(js, p, v) && At(js, p + Len(v), after) && IsBlank(after)
      && p + Len(v) + |after| == |js|
    requires |ValueTokens(v, p)| <= max
    ensures Build(Lex(js, p), max, [], -1) == Ok(ValueTokens(v, p))
  {
    var end, es := p + Len(v), ValueEvents(v, p, Stop(None));
    LexesIs(js, |js|, Stop(None));
    LexBlank(js, end, after, Stop(None));
    BlankEndsLiteral(js, end, after);
    LexValue(js, p, v, Stop(None));
    LexesIs(js, p, es);
    assert After(v, p, [], -1) == ValueTokens(v, p);
    BuildsIs(Stop(None), max, After(v, p, [], -1), TopAfter(v, [], -1), Ok(ValueTokens(v, p)));
    BuildValue(v, p, Stop(None), max, [], -1, Ok(ValueTokens(v, p)));
    BuildsIs(es, max, [], -1, Ok(ValueTokens(v, p)));
  }

  /**
   * Any document, with white space anywhere the grammar allows it: the tokens are its nodes in preorder,
   * with their spans and numbers of children, exactly when the table has room for them.
   */
  lemma TokenizesDocument(before: bytes, v: Value, after: bytes, max: nat)
    requires IsBlank(before) && IsValue(v) && IsBlank(after)
    ensures var toks := ValueTokens(v, |before|);
      Parse(before + Text(v) + after, max) == if |toks| <= max then Tokens(toks) else Rejected(NoMem)
  {
    var js, p, toks := before + Text(v) + after, |before|, ValueTokens(v, |before|);
    assert At(js, p, Text(v));
    TextSpells(js, p, v);
    var big := |toks| + max;
    BuildDocument(js, p, v, after, big);
    LexesIs(js, p, Lex(js, p));
    LexBlank(js, 0, before, Lex(js, p));
    LexesIs(js, 0, Lex(js, p));
    if |toks| <= max {
      BuildDocument(js, p, v, after, max);
    } else {
      BuildTooSmall(Lex(js, p), big, max, [], -1);
    }
    ScanIsBuild(js, max, START);
    ValueTokensClosed(v, p);
    LastOpenIs(toks, -1);
  }
}
