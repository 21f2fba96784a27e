/** JSON documents as trees with their layout, their text, and the tokens that text must give. */
module JsonTree {
  import opened Bytes
  import opened Jsmn

  /** A value with the white space that stands between its parts; bodies and primitives are raw text. */
  datatype Value =
    | Str(body: bytes)
    | Prim(text: bytes)
    | Arr(gap: bytes, items: Items)
    | Obj(gap: bytes, members: Members)

  datatype Items = NoItem | Item(before: bytes, value: Value, after: bytes, rest: Items)

  datatype Members =
    | NoMember
    | Member(w1: bytes, key: bytes, w2: bytes, w3: bytes, value: Value, w4: bytes, rest: Members)

  // ---------------------------------------------------------------- grammar (RFC 8259, sections 2 to 7)

  /** Tab, line feed, carriage return, space. */
  predicate IsBlankChar(c: byte) { c == 9 || c == 10 || c == 13 || c == 32 }

  predicate IsBlank(w: bytes) { forall i :: 0 <= i < |w| ==> IsBlankChar(w[i]) }

  /** The letters that may follow a backslash alone: " / \ b f n r t. */
  predicate IsEscapeLetter(c: byte) {
    c == 34 || c == 47 || c == 92 || c == 98 || c == 102 || c == 110 || c == 114 || c == 116
  }

  /** 0 to 9, A to F, a to f. */
  predicate IsHexDigit(c: byte) { 48 <= c < 58 || 65 <= c < 71 || 97 <= c < 103 }

  /** What may stand between the quotes of a string, from the first character that is not escaped on. */
  predicate IsBody(s: bytes) {
    || s == []
    || (s[0] != 0 && s[0] != 34 && s[0] != 92 && IsBody(s[1..]))
    || (s[0] == 92 && |s| >= 2 && IsEscapeLetter(s[1]) && IsBody(s[2..]))
    || (s[0] == 92 && |s| >= 6 && s[1] == 117
        && IsHexDigit(s[2]) && IsHexDigit(s[3]) && IsHexDigit(s[4]) && IsHexDigit(s[5]) && IsBody(s[6..]))
  }

  /** A character of a literal: printable, and neither blank nor : , ] or }. */
  predicate IsLiteralChar(c: byte) { 33 <= c < 127 && c != 58 && c != 44 && c != 93 && c != 125 }

  /** Any unquoted literal, which takes in the numbers, true, false and null. */
  predicate IsLiteral(t: bytes) {
    && t != []
    && t[0] != 123 && t[0] != 91 && t[0] != 34
    && forall i :: 0 <= i < |t| ==> IsLiteralChar(t[i])
  }

  predicate IsValue(v: Value) {
    match v
    case Str(b) => IsBody(b)
    case Prim(t) => IsLiteral(t)
    case Arr(g, items) => IsBlank(g) && AreItems(items)
    case Obj(g, members) => IsBlank(g) && AreMembers(members)
  }

  predicate AreItems(items: Items) {
    items.Item? ==> IsBlank(items.before) && IsValue(items.value) && IsBlank(items.after) && AreItems(items.rest)
  }

  predicate AreMembers(ms: Members) {
    ms.Member? ==>
      && IsBlank(ms.w1) && IsBody(ms.key) && IsBlank(ms.w2) && IsBlank(ms.w3)
      && IsValue(ms.value) && IsBlank(ms.w4) && AreMembers(ms.rest)
  }

  // ---------------------------------------------------------------- text

  function Quoted(b: bytes): bytes { [34] + (b + [34]) }

  function Text(v: Value): bytes
    decreases v, 0
  {
    match v
    case Str(b) => Quoted(b)
    case Prim(t) => t
    case Arr(g, items) => [91] + (g + ItemsText(items))
    case Obj(g, members) => [123] + (g + MembersText(members))
  }

  /** Up to and including the closing bracket. */
  function ItemsText(items: Items): bytes
    decreases items, 0
  {
    match items
    case NoItem => [93]
    case Item(b, v, a, rest) => b + (Text(v) + (a + MoreItemsText(rest)))
  }

  /** What stands behind an item: the closer, or a comma and the other items. */
  function MoreItemsText(rest: Items): bytes
    decreases rest, 1
  {
    if rest.NoItem? then [93] else [44] + ItemsText(rest)
  }

  function MembersText(ms: Members): bytes
    decreases ms, 0
  {
    match ms
    case NoMember => [125]
    case Member(w1, k, w2, w3, v, w4, rest) =>
      w1 + (Quoted(k) + (w2 + ([58] + (w3 + (Text(v) + (w4 + MoreMembersText(rest)))))))
  }

  function MoreMembersText(rest: Members): bytes
    decreases rest, 1
  {
    if rest.NoMember? then [125] else [44] + MembersText(rest)
  }

  function Len(v: Value): nat {
    match v
    case Str(b) => |b| + 2
    case Prim(t) => |t|
    case Arr(g, items) => |g| + ItemsLen(items) + 2
    case Obj(g, members) => |g| + MembersLen(members) + 2
  }

  function ItemsLen(items: Items): nat {
    match items
    case NoItem => 0
    case Item(b, v, a, rest) => |b| + Len(v) + |a| + (if rest.NoItem? then 0 else 1 + ItemsLen(rest))
  }

  function MembersLen(ms: Members): nat {
    match ms
    case NoMember => 0
    case Member(_, _, _, _, v, w4, rest) =>
      ValueAt(ms, 0) + Len(v) + |w4| + (if rest.NoMember? then 0 else 1 + MembersLen(rest))
  }

  // ---------------------------------------------------------------- the tokens of a text that starts at `p`

  function Count(items: Items): nat { if items.NoItem? then 0 else 1 + Count(items.rest) }

  function Pairs(ms: Members): nat { if ms.NoMember? then 0 else 1 + Pairs(ms.rest) }

  function ValueTokens(v: Value, p: nat): (r: seq<Token>)
    ensures |r| > 0
  {
    match v
    case Str(b) => [Token(String, p + 1, p + 1 + |b|, 0)]
    case Prim(t) => [Token(Primitive, p, p + |t|, 0)]
    case Arr(g, items) => [Token(Array, p, p + Len(v), Count(items))] + ItemTokens(items, p + 1 + |g|)
    case Obj(g, members) => [Token(Object, p, p + Len(v), Pairs(members))] + MemberTokens(members, p + 1 + |g|)
  }

  function ItemTokens(items: Items, p: nat): seq<Token> {
    match items
    case NoItem => []
    case Item(b, v, a, rest) =>
      ValueTokens(v, p + |b|) + ItemTokens(rest, p + |b| + Len(v) + |a| + 1)
  }

  function KeyAt(ms: Members, p: nat): nat requires ms.Member? { p + |ms.w1| }

  function ValueAt(ms: Members, p: nat): nat
    requires ms.Member?
  {
    KeyAt(ms, p) + |ms.key| + 2 + |ms.w2| + 1 + |ms.w3|
  }

  function KeyToken(ms: Members, p: nat, size: nat): Token
    requires ms.Member?
  {
    Token(String, KeyAt(ms, p) + 1, KeyAt(ms, p) + 1 + |ms.key|, size)
  }

  function MemberTokens(ms: Members, p: nat): seq<Token> {
    match ms
    case NoMember => []
    case Member(_, _, _, _, v, w4, rest) =>
      var at := ValueAt(ms, p);
      [KeyToken(ms, p, 1)] + ValueTokens(v, at) + MemberTokens(rest, at + Len(v) + |w4| + 1)
  }

  // ---------------------------------------------------------------- a value standing in a text at `p`

  predicate Is(js: bytes, i: nat, c: byte) { i < |js| && js[i] == c }

  predicate Spells(js: bytes, p: nat, v: Value)
    decreases v, 0
  {
    match v
    case Str(b) => Is(js, p, QUOTE) && At(js, p + 1, b) && Is(js, p + 1 + |b|, QUOTE)
    case Prim(t) => At(js, p, t)
    case Arr(g, items) => Is(js, p, LBRACKET) && At(js, p + 1, g) && SpellsItems(js, p + 1 + |g|, items)
    case Obj(g, ms) => Is(js, p, LBRACE) && At(js, p + 1, g) && SpellsMembers(js, p + 1 + |g|, ms)
  }

  predicate SpellsItems(js: bytes, p: nat, items: Items)
    decreases items, 0
  {
    match items
    case NoItem => Is(js, p, RBRACKET)
    case Item(b, v, a, rest) =>
      var q := p + |b| + Len(v);
      At(js, p, b) && Spells(js, p + |b|, v) && At(js, q, a) && SpellsMoreItems(js, q + |a|, rest)
  }

  predicate SpellsMoreItems(js: bytes, q: nat, rest: Items)
    decreases rest, 1
  {
    if rest.NoItem? then Is(js, q, RBRACKET) else Is(js, q, COMMA) && SpellsItems(js, q + 1, rest)
  }

  predicate SpellsMembers(js: bytes, p: nat, ms: Members)
    decreases ms, 0
  {
    match ms
    case NoMember => Is(js, p, RBRACE)
    case Member(_, _, _, _, v, w4, rest) =>
      var q := ValueAt(ms, p) + Len(v);
      && SpellsKey(js, p, ms) && Spells(js, ValueAt(ms, p), v)
      && At(js, q, w4) && SpellsMoreMembers(js, q + |w4|, rest)
  }

  predicate SpellsMoreMembers(js: bytes, q: nat, rest: Members)
    decreases rest, 1
  {
    if rest.NoMember? then Is(js, q, RBRACE) else Is(js, q, COMMA) && SpellsMembers(js, q + 1, rest)
  }

  predicate SpellsKey(js: bytes, p: nat, ms: Members)
    requires ms.Member?
  {
    var q := KeyAt(ms, p) + |ms.key| + 2;
    && At(js, p, ms.w1)
    && Is(js, KeyAt(ms, p), QUOTE) && At(js, KeyAt(ms, p) + 1, ms.key) && Is(js, q - 1, QUOTE)
    && At(js, q, ms.w2) && Is(js, q + |ms.w2|, COLON) && At(js, q + |ms.w2| + 1, ms.w3)
  }
}
