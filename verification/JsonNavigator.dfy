/** Parsed JSON arguments: the token table with its text, and the queries the transaction screens make. */
module JsonNavigator {
  import opened Bytes
  import opened Errors
  import opened Jsmn
  import opened JsonTree
  import opened JsonIndex
  import JsonEvents
  import JsmnParser

  const TYPE: bytes := [116, 121, 112, 101]
  const VALUE: bytes := [118, 97, 108, 117, 101]
  const ARRAY: bytes := [65, 114, 114, 97, 121]
  const OPTIONAL: bytes := [79, 112, 116, 105, 111, 110, 97, 108]
  const NULL: bytes := [110, 117, 108, 108]

  /** The names of JSON-Cadence. */
  lemma Keywords()
    ensures TYPE == Ascii("type") && VALUE == Ascii("value") && ARRAY == Ascii("Array")
    ensures OPTIONAL == Ascii("Optional") && NULL == Ascii("null")
  {
  }

  /** A query's answer: a token index, or the error. */
  datatype Query = Hit(k: nat) | Miss(err: ParserError)

  // ---------------------------------------------------------------- what the queries compute

  /** The spans of the used tokens lie in the text. */
  predicate InText(js: bytes, table: seq<Token>, n: nat)
    requires n <= |table|
  {
    forall i :: 0 <= i < n ==> 0 <= table[i].start <= table[i].end <= |js|
  }

  function KeyQuery(js: bytes, table: seq<Token>, n: nat, k: nat, name: bytes): Query
    requires n < |table|
  {
    if k > n then Miss(NoData)
    else
      match Lookup(js, table, ObjectKeys(table, n, k), name)
      case None => Miss(NoData)
      case Some(i) => Hit(i + 1)
  }

  function CheckToken(js: bytes, table: seq<Token>, n: nat, k: nat): ParserError
    requires n <= |table|
  {
    if k >= n then JsonInvalidTokenIdx
    else if table[k].start < 0 then JsonUnexpectedError
    else if table[k].end > |js| then UnexpectedBufferEnd
    else ParserError.Ok
  }

  function TokenQuery(js: bytes, table: seq<Token>, n: nat, k: nat, kind: Kind, text: bytes): ParserError
    requires n <= |table|
  {
    if CheckToken(js, table, n, k) != ParserError.Ok then CheckToken(js, table, n, k)
    else if table[k].kind != kind then UnexpectedType
    else if Names(js, table[k], text) then ParserError.Ok
    else UnexpectedValue
  }

  /** Whether the token is an object with two members. */
  function PairQuery(js: bytes, table: seq<Token>, n: nat, k: nat): ParserError
    requires n < |table|
  {
    if CheckToken(js, table, n, k) != ParserError.Ok then CheckToken(js, table, n, k)
    else if table[k].kind != Object || |ObjectKeys(table, n, k)| != 2 then JsonInvalid
    else ParserError.Ok
  }

  /** {"type": T, "value": V} with T as expected: the token of V. */
  function ValueQuery(js: bytes, table: seq<Token>, n: nat, k: nat, ty: bytes): Query
    requires n < |table|
  {
    if PairQuery(js, table, n, k) != ParserError.Ok then Miss(PairQuery(js, table, n, k))
    else
      var t, v := KeyQuery(js, table, n, k, TYPE), KeyQuery(js, table, n, k, VALUE);
      if t.Miss? then t
      else if v.Miss? then v
      else
        var err := TokenQuery(js, table, n, t.k, String, ty);
        if err != ParserError.Ok then Miss(err) else v
  }

  function MatchQuery(js: bytes, table: seq<Token>, n: nat, k: nat, ty: bytes, kind: Kind): Query
    requires n < |table|
  {
    var v := ValueQuery(js, table, n, k, ty);
    if v.Hit? && (v.k >= |table| || table[v.k].kind != kind) then Miss(JsonInvalid) else v
  }

  /** {"type": "Optional", "value": null or {"type": T, "value": V}}; None stands for null. */
  function OptionalQuery(js: bytes, table: seq<Token>, n: nat, k: nat, ty: bytes, kind: Kind): Option<Query>
    requires n < |table|
  {
    var v := ValueQuery(js, table, n, k, OPTIONAL);
    if v.Miss? then Some(v)
    else if v.k < |table| && table[v.k].kind == Primitive then
      var err := TokenQuery(js, table, n, v.k, Primitive, NULL);
      if err == ParserError.Ok then None else Some(Miss(err))
    else if v.k < |table| && table[v.k].kind == Object then Some(MatchQuery(js, table, n, v.k, ty, kind))
    else Some(Miss(JsonInvalid))
  }

  // ---------------------------------------------------------------- what they mean on a document

  function KindOf(v: Value): Kind {
    match v case Str(_) => String case Prim(_) => Primitive case Arr(_, _) => Array case Obj(_, _) => Object
  }

  function TypedValue(v: Value, p: nat, k: nat, ty: bytes): (r: Option<Node>)
    ensures r.Some? ==> v.Obj? && Find(v.members, VALUE, p + 1 + |v.gap|, k + 1) == r
  {
    if !v.Obj? || Pairs(v.members) != 2 then None
    else
      var t := Find(v.members, TYPE, p + 1 + |v.gap|, k + 1);
      if t.None? || t.value.value != Str(ty) then None else Find(v.members, VALUE, p + 1 + |v.gap|, k + 1)
  }

  /** The typed value of a Cadence argument, if the node has that shape, type and kind. */
  function TreeMatch(v: Value, p: nat, k: nat, ty: bytes, kind: Kind): Option<Node> {
    var found := TypedValue(v, p, k, ty);
    if found.Some? && KindOf(found.value.value) == kind then found else None
  }

  lemma HeadKind(table: seq<Token>, n: nat, v: Value, p: nat, k: nat)
    requires Holds(table, n, v, p, k)
    ensures k < n && table[k] == ValueTokens(v, p)[0] && table[k].kind == KindOf(v)
  {
    HeadAndInner(table, k, v, p);
  }

  /** The tokens of a value found under an object are in the table too, and its text in the text. */
  lemma FoundHolds(js: bytes, table: seq<Token>, n: nat, v: Value, p: nat, k: nat, name: bytes)
    requires v.Obj? && Holds(table, n, v, p, k) && Spells(js, p, v)
    requires Find(v.members, name, p + 1 + |v.gap|, k + 1).Some?
    ensures var node := Find(v.members, name, p + 1 + |v.gap|, k + 1).value;
      Holds(table, n, node.value, node.p, node.k) && Spells(js, node.p, node.value)
  {
    FindOccurs(v.members, name, p + 1 + |v.gap|, k + 1);
    var node := Find(v.members, name, p + 1 + |v.gap|, k + 1).value;
    HoldsWithin(table, n, v, p, k, node.value, node.p, node.k);
    FindSpells(js, v.members, name, p + 1 + |v.gap|, k + 1);
  }

  lemma {:induction false} FindSpells(js: bytes, ms: Members, name: bytes, p: nat, k: nat)
    requires SpellsMembers(js, p, ms) && Find(ms, name, p, k).Some?
    ensures var node := Find(ms, name, p, k).value; Spells(js, node.p, node.value)
    decreases ms
  {
    if ms.key != name {
      FindSpells(js, ms.rest, name, ValueAt(ms, p) + Len(ms.value) + |ms.w4| + 1, k + 1 + Size(ms.value));
    }
  }

  lemma KeyQueryIsFind(js: bytes, table: seq<Token>, n: nat, v: Value, p: nat, k: nat, name: bytes)
    requires v.Obj? && Holds(table, n, v, p, k) && Spells(js, p, v)
    ensures var found := Find(v.members, name, p + 1 + |v.gap|, k + 1);
      KeyQuery(js, table, n, k, name) == if found.None? then Miss(NoData) else Hit(found.value.k)
  {
    HeadKind(table, n, v, p, k);
    ObjectKeysAreMembers(table, n, v.gap, v.members, p, k);
    AtSplit(table, k, [ValueTokens(v, p)[0]], MemberTokens(v.members, p + 1 + |v.gap|));
    LookupIsFind(js, table, v.members, p + 1 + |v.gap|, k + 1, name);
  }

  lemma {:induction false} KeyIndicesCount(ms: Members, k: nat)
    ensures |KeyIndices(ms, k)| == Pairs(ms)
    decreases ms
  {
    if ms.Member? { KeyIndicesCount(ms.rest, k + 1 + Size(ms.value)); }
  }

  lemma StringQuery(js: bytes, table: seq<Token>, n: nat, v: Value, p: nat, k: nat, text: bytes)
    requires Holds(table, n, v, p, k) && Spells(js, p, v) && InText(js, table, n)
    ensures TokenQuery(js, table, n, k, String, text) == ParserError.Ok <==> v == Str(text)
  {
    HeadKind(table, n, v, p, k);
    if v.Str? && |text| == |v.body| && At(js, p + 1, text) {
      forall i | 0 <= i < |text| ensures text[i] == v.body[i] { assert js[p + 1 + i] == v.body[i]; }
    }
  }

  lemma ValueQueryIsTree(js: bytes, table: seq<Token>, n: nat, v: Value, p: nat, k: nat, ty: bytes)
    requires Holds(table, n, v, p, k) && Spells(js, p, v) && InText(js, table, n)
    ensures var found := TypedValue(v, p, k, ty);
      if found.Some? then ValueQuery(js, table, n, k, ty) == Hit(found.value.k)
      else ValueQuery(js, table, n, k, ty).Miss?
  {
    hide KeyQuery;
    HeadKind(table, n, v, p, k);
    if v.Obj? {
      ObjectKeysAreMembers(table, n, v.gap, v.members, p, k);
      KeyIndicesCount(v.members, k + 1);
      KeyQueryIsFind(js, table, n, v, p, k, TYPE);
      KeyQueryIsFind(js, table, n, v, p, k, VALUE);
      var t := Find(v.members, TYPE, p + 1 + |v.gap|, k + 1);
      if t.Some? {
        FoundHolds(js, table, n, v, p, k, TYPE);
        StringQuery(js, table, n, t.value.value, t.value.p, t.value.k, ty);
      }
    }
  }

  /** On any node of any document the span-based match answers exactly what the tree says. */
  lemma MatchQueryIsTree(js: bytes, table: seq<Token>, n: nat, v: Value, p: nat, k: nat, ty: bytes, kind: Kind)
    requires Holds(table, n, v, p, k) && Spells(js, p, v) && InText(js, table, n)
    ensures var found := TreeMatch(v, p, k, ty, kind);
      if found.Some? then MatchQuery(js, table, n, k, ty, kind) == Hit(found.value.k)
      else MatchQuery(js, table, n, k, ty, kind).Miss?
  {
    hide ValueQuery, TypedValue, Spells, InText;
    ValueQueryIsTree(js, table, n, v, p, k, ty);
    var found := TypedValue(v, p, k, ty);
    if found.Some? {
      FoundHolds(js, table, n, v, p, k, VALUE);
      HeadKind(table, n, found.value.value, found.value.p, found.value.k);
    }
  }

  /** The same for optional arguments: null, a typed value of the right kind, or a refusal. */
  lemma OptionalQueryIsTree(js: bytes, table: seq<Token>, n: nat, v: Value, p: nat, k: nat, ty: bytes, kind: Kind)
    requires Holds(table, n, v, p, k) && Spells(js, p, v) && InText(js, table, n)
    ensures var r, outer := OptionalQuery(js, table, n, k, ty, kind), TypedValue(v, p, k, OPTIONAL);
      && (r == None <==> outer.Some? && outer.value.value == Prim(NULL))
      && (r.Some? && r.value.Hit? ==>
            outer.Some? && TreeMatch(outer.value.value, outer.value.p, outer.value.k, ty, kind).Some?
            && r.value.k == TreeMatch(outer.value.value, outer.value.p, outer.value.k, ty, kind).value.k)
      && (outer.Some? && TreeMatch(outer.value.value, outer.value.p, outer.value.k, ty, kind).Some? ==>
            r.Some? && r.value.Hit?)
  {
    hide Holds, Spells, InText, MatchQuery, ValueQuery, TypedValue;
    ValueQueryIsTree(js, table, n, v, p, k, OPTIONAL);
    var outer := TypedValue(v, p, k, OPTIONAL);
    if outer.Some? {
      var x := outer.value;
      FoundHolds(js, table, n, v, p, k, VALUE);
      HeadKind(table, n, x.value, x.p, x.k);
      MatchQueryIsTree(js, table, n, x.value, x.p, x.k, ty, kind);
      if x.value.Prim? { LiteralQuery(js, table, n, x.value, x.p, x.k, NULL); }
    }
  }

  /** What is wrong with a node that should be {"type": T, "value": V}, looked at in the order of the program. */
  function TypedError(v: Value, p: nat, k: nat, ty: bytes): Option<ParserError> {
    if !v.Obj? || Pairs(v.members) != 2 then Some(JsonInvalid)
    else
      var t := Find(v.members, Ascii("type"), p + 1 + |v.gap|, k + 1);
      var x := Find(v.members, Ascii("value"), p + 1 + |v.gap|, k + 1);
      if t.None? || x.None? then Some(NoData)
      else if !t.value.value.Str? then Some(UnexpectedType)
      else if t.value.value.body != ty then Some(UnexpectedValue)
      else None
  }

  lemma ValueErrorIsTree(js: bytes, table: seq<Token>, n: nat, v: Value, p: nat, k: nat, ty: bytes)
    requires Holds(table, n, v, p, k) && Spells(js, p, v) && InText(js, table, n)
    ensures var q := ValueQuery(js, table, n, k, ty);
      TypedError(v, p, k, ty) == if q.Hit? then None else Some(q.err)
  {
    hide KeyQuery, Holds, Spells;
    Keywords();
    HeadKind(table, n, v, p, k);
    if v.Obj? {
      ObjectKeysAreMembers(table, n, v.gap, v.members, p, k);
      KeyIndicesCount(v.members, k + 1);
      KeyQueryIsFind(js, table, n, v, p, k, TYPE);
      KeyQueryIsFind(js, table, n, v, p, k, VALUE);
      var t := Find(v.members, TYPE, p + 1 + |v.gap|, k + 1);
      if t.Some? {
        FoundHolds(js, table, n, v, p, k, TYPE);
        HeadKind(table, n, t.value.value, t.value.p, t.value.k);
        StringQuery(js, table, n, t.value.value, t.value.p, t.value.k, ty);
      }
    }
  }

  /** The error of a match, on any node of any document. */
  lemma MatchErrorIsTree(js: bytes, table: seq<Token>, n: nat, v: Value, p: nat, k: nat, ty: bytes, kind: Kind)
    requires Holds(table, n, v, p, k) && Spells(js, p, v) && InText(js, table, n)
    ensures var q, e := MatchQuery(js, table, n, k, ty, kind), TypedError(v, p, k, ty);
      q.Miss? ==> q.err == if e.Some? then e.value else JsonInvalid
  {
    hide ValueQuery, TypedError, Spells, InText;
    ValueErrorIsTree(js, table, n, v, p, k, ty);
  }

  /** The error of an optional match: of the outer object, of a literal that is not null, or of the inner object. */
  lemma OptionalErrorIsTree(js: bytes, table: seq<Token>, n: nat, v: Value, p: nat, k: nat, ty: bytes, kind: Kind)
    requires Holds(table, n, v, p, k) && Spells(js, p, v) && InText(js, table, n)
    ensures var r, e := OptionalQuery(js, table, n, k, ty, kind), TypedError(v, p, k, Ascii("Optional"));
      r.Some? && r.value.Miss? ==>
        if e.Some? then r.value.err == e.value
        else
          var x := TypedValue(v, p, k, Ascii("Optional"));
          x.Some? && r.value.err ==
            if x.value.value.Prim? then UnexpectedValue
            else if !x.value.value.Obj? then JsonInvalid
            else
              var inner := TypedError(x.value.value, x.value.p, x.value.k, ty);
              if inner.Some? then inner.value else JsonInvalid
  {
    hide Holds, Spells, InText, MatchQuery, ValueQuery, TypedValue, TypedError;
    Keywords();
    ValueErrorIsTree(js, table, n, v, p, k, OPTIONAL);
    ValueQueryIsTree(js, table, n, v, p, k, OPTIONAL);
    var outer := TypedValue(v, p, k, OPTIONAL);
    if outer.Some? {
      var x := outer.value;
      FoundHolds(js, table, n, v, p, k, VALUE);
      HeadKind(table, n, x.value, x.p, x.k);
      MatchErrorIsTree(js, table, n, x.value, x.p, x.k, ty, kind);
      if x.value.Prim? { LiteralError(js, table, n, x.value, x.p, x.k, NULL); }
    }
  }

  lemma LiteralError(js: bytes, table: seq<Token>, n: nat, v: Value, p: nat, k: nat, text: bytes)
    requires v.Prim? && Holds(table, n, v, p, k) && InText(js, table, n)
    ensures TokenQuery(js, table, n, k, Primitive, text) in {ParserError.Ok, UnexpectedValue}
  {
    HeadKind(table, n, v, p, k);
  }

  lemma LiteralQuery(js: bytes, table: seq<Token>, n: nat, v: Value, p: nat, k: nat, text: bytes)
    requires v.Prim? && Holds(table, n, v, p, k) && Spells(js, p, v) && InText(js, table, n)
    ensures TokenQuery(js, table, n, k, Primitive, text) == ParserError.Ok <==> v == Prim(text)
  {
    HeadKind(table, n, v, p, k);
    if |text| == |v.text| && At(js, p, text) {
      forall i | 0 <= i < |text| ensures text[i] == v.text[i] { assert js[p + i] == v.text[i]; }
    }
  }

  // ---------------------------------------------------------------- the parsed text as an object

  const ZERO_TOKEN := Token(Undefined, 0, 0, 0)

  /** The used tokens, the rest of the table, which is zero, and one entry behind it. */
  function TableOf(toks: seq<Token>, size: nat, behind: Token): (r: seq<Token>)
    ensures |r| > |toks|
  {
    toks + (seq(if |toks| <= size then size - |toks| else 0, _ => ZERO_TOKEN) + [behind])
  }

  /** A value that is found behind a key is at most the entry behind the used ones. */
  lemma {:induction false} LookupKey(js: bytes, table: seq<Token>, n: nat, j: nat, end: int, prev: int, name: bytes)
    requires n < |table|
    ensures var found := Lookup(js, table, Keys(table, n, j, end, prev), name); found.Some? ==> found.value < n
    decreases n - j
  {
    if j < n && table[j].start <= end {
      if table[j].start <= prev {
        LookupKey(js, table, n, j + 1, end, prev, name);
      } else {
        LookupKey(js, table, n, j + 1, end, table[j + 1].end, name);
        var rest := Keys(table, n, j + 1, end, table[j + 1].end);
        assert ([j] + rest)[1..] == rest;
      }
    }
  }

  lemma ValueQueryEntry(js: bytes, table: seq<Token>, n: nat, k: nat, ty: bytes)
    requires n < |table|
    ensures ValueQuery(js, table, n, k, ty).Hit? ==> ValueQuery(js, table, n, k, ty).k <= n
  {
    if k <= n { LookupKey(js, table, n, k + 1, table[k].end, table[k].start, VALUE); }
  }

  class ParsedJson {
    var isValid: bool
    var numberOfTokens: nat
    const tokens: array<Token>
    /** What memory holds behind the table, where a query on a full table may look. */
    const behind: Token
    var buffer: bytes

    constructor (size: nat, behind: Token)
      ensures !isValid && numberOfTokens == 0 && tokens.Length == size && this.behind == behind && fresh(tokens)
    {
      isValid, numberOfTokens, buffer := false, 0, [];
      tokens := new Token[size](_ => ZERO_TOKEN);
      this.behind := behind;
    }

    /** All that a query can see. */
    function Table(): seq<Token>
      reads this, tokens
    {
      tokens[..] + [behind]
    }

    /** A text has been accepted. */
    predicate Usable()
      reads this, tokens
    {
      isValid && numberOfTokens <= tokens.Length && InText(buffer, Table(), numberOfTokens)
    }

    method Entry(i: nat) returns (t: Token)
      requires i <= tokens.Length
      ensures t == Table()[i]
    {
      return if i < tokens.Length then tokens[i] else behind;
    }

    /** Tokenizes a text; the outcome and the table are those of the scan. */
    method Parse(text: bytes) returns (err: ParserError)
      requires |text| <= JsmnParser.MAX_OFFSET && tokens.Length <= JsmnParser.MAX_OFFSET
      modifies this, tokens
      ensures buffer == text && (isValid <==> err == ParserError.Ok)
      ensures match Jsmn.Parse(text, tokens.Length)
        case Rejected(NoMem) => err == JsonTooManyTokens
        case Rejected(Inval) => err == UnexpectedCharacters
        case Rejected(Part) => err == JsonIncomplete
        case Tokens(toks) =>
          if toks == [] then err == JsonZeroTokens
          else err == ParserError.Ok && Usable() && numberOfTokens == |toks|
               && Table() == TableOf(toks, tokens.Length, behind)
    {
      isValid, numberOfTokens, buffer := false, 0, text;
      forall i | 0 <= i < tokens.Length { tokens[i] := ZERO_TOKEN; }
      ghost var blank := tokens[..];
      var parser := new JsmnParser.Parser();
      var count, error := parser.Parse(text, tokens);
      match error {
        case Some(NoMem) => return JsonTooManyTokens;
        case Some(Inval) => return UnexpectedCharacters;
        case Some(Part) => return JsonIncomplete;
        case None =>
      }
      if count == 0 { return JsonZeroTokens; }
      if count > tokens.Length { return JsonTooManyTokens; }
      numberOfTokens, isValid := count, true;
      ParseSound(text, tokens.Length);
      assert forall i :: 0 <= i < count ==> WellDelimited(text, tokens[..count][i], |text|);
      assert tokens[..] == tokens[..count] + blank[count..];
      return ParserError.Ok;
    }

    method ArrayElementCount(k: nat) returns (err: ParserError, count: nat)
      requires Usable()
      ensures if k > numberOfTokens then err == NoData && count == 0
        else err == ParserError.Ok && count == |ArrayElements(Table(), numberOfTokens, k)|
    {
      count := 0;
      if k > numberOfTokens { return NoData, 0; }
      var root := Entry(k);
      var j, prev := k + 1, root.start;
      while j < numberOfTokens && tokens[j].start <= root.end
        invariant count + |Tops(Table(), numberOfTokens, j, root.end, prev)|
                  == |ArrayElements(Table(), numberOfTokens, k)|
        decreases numberOfTokens - j
      {
        if tokens[j].start > prev {
          prev := tokens[j].end;
          count := count + 1;
        }
        j := j + 1;
      }
      return ParserError.Ok, count;
    }

    method ArrayNthElement(k: nat, index: nat) returns (r: Query)
      requires Usable()
      ensures k > numberOfTokens ==> r == Miss(NoData)
      ensures k <= numberOfTokens ==>
        var elements := ArrayElements(Table(), numberOfTokens, k);
        r == if index < |elements| then Hit(elements[index]) else Miss(NoData)
    {
      if k > numberOfTokens { return Miss(NoData); }
      var root := Entry(k);
      var j, count, prev := k + 1, 0, root.start;
      ghost var elements := ArrayElements(Table(), numberOfTokens, k);
      while j < numberOfTokens && tokens[j].start <= root.end
        invariant 0 <= count <= |elements| && count <= index
        invariant Tops(Table(), numberOfTokens, j, root.end, prev) == elements[count..]
        decreases numberOfTokens - j
      {
        if tokens[j].start > prev {
          prev := tokens[j].end;
          assert elements[count] == j;
          if count == index { return Hit(j); }
          count := count + 1;
        }
        j := j + 1;
      }
      return Miss(NoData);
    }

    method ObjectElementCount(k: nat) returns (err: ParserError, count: nat)
      requires Usable()
      ensures if k > numberOfTokens then err == NoData && count == 0
        else err == ParserError.Ok && count == |ObjectKeys(Table(), numberOfTokens, k)|
    {
      count := 0;
      if k > numberOfTokens { return NoData, 0; }
      var root := Entry(k);
      var j, prev := k + 1, root.start;
      while j < numberOfTokens && tokens[j].start <= root.end
        invariant count + |Keys(Table(), numberOfTokens, j, root.end, prev)|
                  == |ObjectKeys(Table(), numberOfTokens, k)|
        decreases numberOfTokens - j
      {
        if tokens[j].start > prev {
          var value := Entry(j + 1);
          prev := value.end;
          count := count + 1;
        }
        j := j + 1;
      }
      return ParserError.Ok, count;
    }

    method ObjectNthKey(k: nat, index: nat) returns (r: Query)
      requires Usable()
      ensures k > numberOfTokens ==> r == Miss(NoData)
      ensures k <= numberOfTokens ==>
        var keys := ObjectKeys(Table(), numberOfTokens, k);
        r == if index < |keys| then Hit(keys[index]) else Miss(NoData)
    {
      if k > numberOfTokens { return Miss(NoData); }
      var root := Entry(k);
      var j, count, prev := k + 1, 0, root.start;
      ghost var keys := ObjectKeys(Table(), numberOfTokens, k);
      while j < numberOfTokens && tokens[j].start <= root.end
        invariant 0 <= count <= |keys| && count <= index
        invariant Keys(Table(), numberOfTokens, j, root.end, prev) == keys[count..]
        decreases numberOfTokens - j
      {
        if tokens[j].start > prev {
          var value := Entry(j + 1);
          prev := value.end;
          assert keys[count] == j;
          if count == index { return Hit(j); }
          count := count + 1;
        }
        j := j + 1;
      }
      return Miss(NoData);
    }

    method ObjectValue(k: nat, name: bytes) returns (r: Query)
      requires Usable()
      ensures r == KeyQuery(buffer, Table(), numberOfTokens, k, name)
    {
      if k > numberOfTokens { return Miss(NoData); }
      var root := Entry(k);
      var j, prev := k + 1, root.start;
      ghost var table, n := Table(), numberOfTokens;
      while j < numberOfTokens && tokens[j].start <= root.end
        invariant Lookup(buffer, table, Keys(table, n, j, root.end, prev), name)
                  == Lookup(buffer, table, ObjectKeys(table, n, k), name)
        decreases numberOfTokens - j
      {
        var key := tokens[j];
        if key.start > prev {
          ghost var keys := Keys(table, n, j, root.end, prev);
          var value := Entry(j + 1);
          prev := value.end;
          assert keys[0] == j && keys[1..] == Keys(table, n, j + 1, root.end, prev);
          if |name| == key.end - key.start {
            AtSlice(buffer, key.start, name);
            if name == buffer[key.start..key.end] { return Hit(j + 1); }
          }
        }
        j := j + 1;
      }
      return Miss(NoData);
    }

    method MatchToken(k: nat, kind: Kind, text: bytes) returns (err: ParserError)
      requires Usable()
      ensures err == TokenQuery(buffer, Table(), numberOfTokens, k, kind, text)
    {
      if k >= numberOfTokens { return JsonInvalidTokenIdx; }
      var t := tokens[k];
      if t.kind != kind { return UnexpectedType; }
      AtSlice(buffer, t.start, text);
      if |text| != t.end - t.start || text != buffer[t.start..t.end] { return UnexpectedValue; }
      return ParserError.Ok;
    }

    method TypedValueToken(k: nat, ty: bytes) returns (r: Query)
      requires Usable()
      ensures r == ValueQuery(buffer, Table(), numberOfTokens, k, ty)
    {
      if k >= numberOfTokens { return Miss(JsonInvalidTokenIdx); }
      if tokens[k].kind != Object { return Miss(JsonInvalid); }
      var err, count := ObjectElementCount(k);
      if count != 2 { return Miss(JsonInvalid); }
      var t := ObjectValue(k, TYPE);
      if t.Miss? { return t; }
      var v := ObjectValue(k, VALUE);
      if v.Miss? { return v; }
      err := MatchToken(t.k, String, ty);
      return if err == ParserError.Ok then v else Miss(err);
    }

    method MatchKeyValue(k: nat, ty: bytes, kind: Kind) returns (r: Query)
      requires Usable()
      ensures r == MatchQuery(buffer, Table(), numberOfTokens, k, ty, kind)
    {
      r := TypedValueToken(k, ty);
      ValueQueryEntry(buffer, Table(), numberOfTokens, k, ty);
      if r.Hit? {
        var value := Entry(r.k);
        if value.kind != kind { r := Miss(JsonInvalid); }
      }
    }

    method MatchOptionalKeyValue(k: nat, ty: bytes, kind: Kind) returns (r: Option<Query>)
      requires Usable()
      ensures r == OptionalQuery(buffer, Table(), numberOfTokens, k, ty, kind)
    {
      var v := TypedValueToken(k, OPTIONAL);
      ValueQueryEntry(buffer, Table(), numberOfTokens, k, OPTIONAL);
      if v.Miss? { return Some(v); }
      var value := Entry(v.k);
      if value.kind == Primitive {
        var err := MatchToken(v.k, Primitive, NULL);
        return if err == ParserError.Ok then None else Some(Miss(err));
      }
      if value.kind == Object {
        var inner := MatchKeyValue(v.k, ty, kind);
        return Some(inner);
      }
      return Some(Miss(JsonInvalid));
    }
  }

  // ---------------------------------------------------------------- array arguments of a transaction

  datatype ItemCount = Counted(n: nat) | Refused(err: ParserError)

  function ParseError(e: Jsmn.Error): ParserError {
    match e case NoMem => JsonTooManyTokens case Inval => UnexpectedCharacters case Part => JsonIncomplete
  }

  function CountItems(js: bytes, table: seq<Token>, n: nat, min: nat, max: nat): ItemCount
    requires n < |table|
  {
    var q := MatchQuery(js, table, n, 0, ARRAY, Array);
    if q.Miss? then Refused(q.err)
    else if q.k > n then Refused(NoData)
    else
      var count := |ArrayElements(table, n, q.k)|;
      if min <= count <= max then Counted(count) else Refused(UnexpectedNumberItems)
  }

  /** A value found where the table of a full text ends counts as an array without items. */
  lemma ValueBehind(js: bytes, table: seq<Token>, n: nat, min: nat, max: nat)
    requires n < |table| && MatchQuery(js, table, n, 0, ARRAY, Array) == Hit(n)
    ensures CountItems(js, table, n, min, max) == if min == 0 then Counted(0) else Refused(UnexpectedNumberItems)
  {
    hide MatchQuery;
  }

  /** The size of the token table, which depends on the device, and what memory holds behind the table. */
  datatype Limits = Limits(tokens: nat, behind: Token)

  /** How many screens the array argument at an index takes. */
  function ArgumentItems(z: Limits, args: seq<bytes>, index: nat, min: nat, max: nat): ItemCount {
    if index >= |args| then Refused(UnexpectedField)
    else
      match Jsmn.Parse(args[index], z.tokens)
      case Rejected(e) => Refused(ParseError(e))
      case Tokens(toks) =>
        if toks == [] then Refused(JsonZeroTokens)
        else CountItems(args[index], TableOf(toks, z.tokens, z.behind), |toks|, min, max)
  }

  method CountArgumentItems(z: Limits, args: seq<bytes>, index: nat, min: nat, max: nat) returns (r: ItemCount)
    requires z.tokens <= JsmnParser.MAX_OFFSET && forall i :: 0 <= i < |args| ==> |args[i]| <= JsmnParser.MAX_OFFSET
    ensures r == ArgumentItems(z, args, index, min, max)
  {
    hide CountItems;
    if index >= |args| { return Refused(UnexpectedField); }
    var json := new ParsedJson(z.tokens, z.behind);
    var err := json.Parse(args[index]);
    if err != ParserError.Ok { return Refused(err); }
    r := CountParsedItems(json, min, max);
  }

  method CountParsedItems(json: ParsedJson, min: nat, max: nat) returns (r: ItemCount)
    requires json.Usable()
    ensures r == CountItems(json.buffer, json.Table(), json.numberOfTokens, min, max)
  {
    var q := json.MatchKeyValue(0, ARRAY, Array);
    if q.Miss? { return Refused(q.err); }
    var err, count := json.ArrayElementCount(q.k);
    if err != ParserError.Ok { return Refused(err); }
    if count < min || count > max { return Refused(UnexpectedNumberItems); }
    return Counted(count);
  }

  lemma {:induction false} ItemIndicesCount(items: Items, k: nat)
    ensures |ItemIndices(items, k)| == Count(items)
    decreases items
  {
    if items.Item? { ItemIndicesCount(items.rest, k + Size(items.value)); }
  }

  /** The tokens of a document, whatever else the table holds behind them. */
  lemma DocumentHolds(before: bytes, v: Value, after: bytes, rest: seq<Token>)
    requires IsBlank(before) && IsValue(v) && IsBlank(after) && rest != []
    ensures var js, toks := before + Text(v) + after, ValueTokens(v, |before|);
      && Spells(js, |before|, v) && Holds(toks + rest, |toks|, v, |before|, 0) && InText(js, toks + rest, |toks|)
  {
    var js, p, toks := before + Text(v) + after, |before|, ValueTokens(v, |before|);
    assert At(js, p, Text(v));
    JsonEvents.TextSpells(js, p, v);
    TokensSize(v, p);
    JsonEvents.TokenizesDocument(before, v, after, |toks|);
    ParseSound(js, |toks|);
    forall i | 0 <= i < |toks| ensures 0 <= (toks + rest)[i].start <= (toks + rest)[i].end <= |js| {
      assert WellDelimited(js, toks[i], |js|);
    }
  }

  /** What the tree says about the number of items: None when the node is no typed array. */
  function TreeItems(v: Value, p: nat): Option<nat> {
    var found := TreeMatch(v, p, 0, ARRAY, Array);
    if found.None? || !found.value.value.Arr? then None else Some(Count(found.value.value.items))
  }

  /** What is wrong with a document that is no typed array. */
  function NoArray(v: Value, p: nat): ParserError {
    var e := TypedError(v, p, 0, Ascii("Array"));
    if e.Some? then e.value else JsonInvalid
  }

  lemma CountHeldItems(js: bytes, table: seq<Token>, n: nat, v: Value, p: nat, min: nat, max: nat)
    requires Holds(table, n, v, p, 0) && Spells(js, p, v) && InText(js, table, n)
    ensures var items, r := TreeItems(v, p), CountItems(js, table, n, min, max);
      if items.None? then r == Refused(NoArray(v, p))
      else r == if min <= items.value <= max then Counted(items.value) else Refused(UnexpectedNumberItems)
  {
    hide TypedValue, TypedError, Spells, InText, Find;
    MatchQueryIsTree(js, table, n, v, p, 0, ARRAY, Array);
    MatchErrorIsTree(js, table, n, v, p, 0, ARRAY, Array);
    Keywords();
    var found := TreeMatch(v, p, 0, ARRAY, Array);
    if found.Some? {
      var x := found.value;
      FoundHolds(js, table, n, v, p, 0, VALUE);
      ArrayElementsAreItems(table, n, x.value.gap, x.value.items, x.p, x.k);
      ItemIndicesCount(x.value.items, x.k + 1);
    }
  }

  /**
   * For an argument that is a document, with any white space around it, the number of screens is the number of
   * items in the tree: refused exactly when the tree is no typed array, has too few or too many items, or has
   * more nodes than the table has entries.
   */
  lemma CountItemsIsTree(
    z: Limits, args: seq<bytes>, index: nat, before: bytes, v: Value, after: bytes, min: nat, max: nat)
    requires IsBlank(before) && IsValue(v) && IsBlank(after)
    requires index < |args| && args[index] == before + Text(v) + after
    ensures var items, r := TreeItems(v, |before|), ArgumentItems(z, args, index, min, max);
      if |ValueTokens(v, |before|)| > z.tokens then r == Refused(JsonTooManyTokens)
      else if items.None? then r == Refused(NoArray(v, |before|))
      else r == if min <= items.value <= max then Counted(items.value) else Refused(UnexpectedNumberItems)
  {
    hide CountItems, TreeItems, NoArray;
    var toks := ValueTokens(v, |before|);
    JsonEvents.TokenizesDocument(before, v, after, z.tokens);
    TokensSize(v, |before|);
    if |toks| <= z.tokens {
      var rest := TableOf(toks, z.tokens, z.behind)[|toks|..];
      DocumentHolds(before, v, after, rest);
      assert TableOf(toks, z.tokens, z.behind) == toks + rest;
      CountHeldItems(args[index], toks + rest, |toks|, v, |before|, min, max);
    }
  }
}
