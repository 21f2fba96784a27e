/** The one-pass tokenizer of deps/jsmn: a scan over the text that fills a flat array of spans. */
module Jsmn {
  import opened Bytes

  const TAB: byte := 9
  const LF: byte := 10
  const CR: byte := 13
  const SPACE: byte := 32
  const QUOTE: byte := 34
  const COMMA: byte := 44
  const SLASH: byte := 47
  const COLON: byte := 58
  const LBRACKET: byte := 91
  const BACKSLASH: byte := 92
  const RBRACKET: byte := 93
  const LBRACE: byte := 123
  const RBRACE: byte := 125

  datatype Kind = Undefined | Object | Array | String | Primitive
  datatype Token = Token(kind: Kind, start: int, end: int, size: int)
  datatype Error = NoMem | Inval | Part

  /** What the scan knows between two characters; `toks` are the tokens allocated so far. */
  datatype State = State(pos: nat, toks: seq<Token>, super: int)
  datatype Outcome = Done(state: State) | Fail(error: Error)
  datatype Stop = Found(at: nat) | Bad(error: Error)
  datatype Parsed = Tokens(toks: seq<Token>) | Rejected(error: Error)

  predicate IsSpace(c: byte) { c == TAB || c == CR || c == LF || c == SPACE }

  /** The characters that end a primitive in non-strict mode. */
  predicate IsDelimiter(c: byte) {
    IsSpace(c) || c == COLON || c == COMMA || c == RBRACKET || c == RBRACE
  }

  predicate IsHex(c: byte) { 48 <= c <= 57 || 65 <= c <= 70 || 97 <= c <= 102 }

  /** One of " / \ b f r n t. */
  predicate IsEscape(c: byte) {
    c == QUOTE || c == SLASH || c == BACKSLASH || c == 98 || c == 102 || c == 114 || c == 110 || c == 116
  }

  predicate IsContainer(k: Kind) { k == Object || k == Array }

  predicate IsOpen(t: Token) { t.start != -1 && t.end == -1 }

  /** The text ends at its length or at the first NUL. */
  predicate AtEnd(js: bytes, i: nat) { i >= |js| || js[i] == 0 }

  // ---------------------------------------------------------------- scanning strings and primitives

  function PrimitiveStop(js: bytes, i: nat): (r: Stop)
    requires i <= |js|
    ensures r.Found? ==> i <= r.at <= |js|
    ensures r.Found? && !AtEnd(js, i) && !IsDelimiter(js[i]) ==> i < r.at
    decreases |js| - i
  {
    if AtEnd(js, i) || IsDelimiter(js[i]) then Found(i)
    else if js[i] < 32 || js[i] >= 127 then Bad(Inval)
    else PrimitiveStop(js, i + 1)
  }

  /** Skips at most `n` hexadecimal digits; None at the first character that is not one. */
  function HexStop(js: bytes, i: nat, n: nat): (r: Option<nat>)
    requires i <= |js|
    ensures r.Some? ==> i <= r.value <= |js|
    decreases n
  {
    if n == 0 || AtEnd(js, i) then Some(i)
    else if !IsHex(js[i]) then None
    else HexStop(js, i + 1, n - 1)
  }

  /** The closing quote of the string whose body is read from `i`. */
  function StringStop(js: bytes, i: nat): (r: Stop)
    requires i <= |js|
    ensures r.Found? ==> i <= r.at < |js| && js[r.at] == QUOTE
    decreases |js| - i
  {
    if AtEnd(js, i) then Bad(Part)
    else if js[i] == QUOTE then Found(i)
    else if js[i] == BACKSLASH && i + 1 < |js| then
      if IsEscape(js[i + 1]) then StringStop(js, i + 2)
      else if js[i + 1] == 117 then
        match HexStop(js, i + 2, 4)
        case None => Bad(Inval)
        case Some(k) => StringStop(js, k)
      else Bad(Inval)
    else StringStop(js, i + 1)
  }

  // ---------------------------------------------------------------- one step of the main loop

  /** The last of the first `n` tokens that is still open, or -1. */
  function LastOpenBelow(toks: seq<Token>, n: nat): (i: int)
    requires n <= |toks|
    ensures -1 <= i < n
    ensures i >= 0 ==> IsOpen(toks[i])
  {
    if n == 0 then -1
    else if IsOpen(toks[n - 1]) then n - 1
    else LastOpenBelow(toks, n - 1)
  }

  function LastOpen(toks: seq<Token>): (i: int)
    ensures -1 <= i < |toks|
    ensures i >= 0 ==> IsOpen(toks[i])
  {
    LastOpenBelow(toks, |toks|)
  }

  lemma {:induction false} LastOpenBelowIs(toks: seq<Token>, n: nat, i: int)
    requires -1 <= i < n <= |toks|
    requires i >= 0 ==> IsOpen(toks[i])
    ensures LastOpenBelow(toks, n) == i <==> forall j :: i < j < n ==> !IsOpen(toks[j])
  {
    if n > 0 && n - 1 > i && !IsOpen(toks[n - 1]) { LastOpenBelowIs(toks, n - 1, i); }
  }

  lemma LastOpenIs(toks: seq<Token>, i: int)
    requires -1 <= i < |toks|
    requires i >= 0 ==> IsOpen(toks[i])
    ensures LastOpen(toks) == i <==> forall j :: i < j < |toks| ==> !IsOpen(toks[j])
  {
    LastOpenBelowIs(toks, |toks|, i);
  }

  /** `n` more children for the token at `i`, if there is one. */
  function Grow(toks: seq<Token>, i: int, n: int): (r: seq<Token>)
    requires -1 <= i < |toks|
    ensures |r| == |toks|
  {
    if i == -1 then toks else toks[i := toks[i].(size := toks[i].size + n)]
  }

  function Add(st: State, max: nat, tok: Token, pos: nat): Outcome
    requires -1 <= st.super < |st.toks|
  {
    if |st.toks| >= max then Fail(NoMem)
    else Done(State(pos, Grow(st.toks, st.super, 1) + [tok], st.super))
  }

  function OpenStep(st: State, max: nat, kind: Kind): Outcome
    requires -1 <= st.super < |st.toks|
  {
    match Add(st, max, Token(kind, st.pos, -1, 0), st.pos + 1)
    case Fail(e) => Fail(e)
    case Done(s) => Done(s.(super := |st.toks|))
  }

  function CloseStep(st: State, kind: Kind): Outcome {
    var i := LastOpen(st.toks);
    if i == -1 || st.toks[i].kind != kind then Fail(Inval)
    else
      var toks := st.toks[i := st.toks[i].(end := st.pos + 1)];
      Done(State(st.pos + 1, toks, LastOpen(toks)))
  }

  function StringStep(js: bytes, max: nat, st: State): Outcome
    requires st.pos < |js| && -1 <= st.super < |st.toks|
  {
    match StringStop(js, st.pos + 1)
    case Bad(e) => Fail(e)
    case Found(q) => Add(st, max, Token(String, st.pos + 1, q, 0), q + 1)
  }

  function PrimitiveStep(js: bytes, max: nat, st: State): Outcome
    requires st.pos < |js| && -1 <= st.super < |st.toks|
  {
    match PrimitiveStop(js, st.pos)
    case Bad(e) => Fail(e)
    case Found(q) => Add(st, max, Token(Primitive, st.pos, q, 0), q)
  }

  /** The parent in force after a separator. */
  function SuperAfter(c: byte, st: State): (r: int)
    requires -1 <= st.super < |st.toks|
    ensures -1 <= r < |st.toks|
  {
    if c == COLON then |st.toks| - 1
    else if c == COMMA && st.super != -1 && !IsContainer(st.toks[st.super].kind) && LastOpen(st.toks) != -1
    then LastOpen(st.toks)
    else st.super
  }

  function Step(js: bytes, max: nat, st: State): (r: Outcome)
    requires !AtEnd(js, st.pos)
    requires -1 <= st.super < |st.toks|
    ensures r.Done? ==> st.pos < r.state.pos <= |js| && -1 <= r.state.super < |r.state.toks|
  {
    var c := js[st.pos];
    if c == LBRACE then OpenStep(st, max, Object)
    else if c == LBRACKET then OpenStep(st, max, Array)
    else if c == RBRACE then CloseStep(st, Object)
    else if c == RBRACKET then CloseStep(st, Array)
    else if c == QUOTE then StringStep(js, max, st)
    else if IsDelimiter(c) then Done(st.(pos := st.pos + 1, super := SuperAfter(c, st)))
    else PrimitiveStep(js, max, st)
  }

  function Scan(js: bytes, max: nat, st: State): (r: Outcome)
    requires -1 <= st.super < |st.toks|
    decreases |js| - st.pos
  {
    if AtEnd(js, st.pos) then Done(st)
    else
      match Step(js, max, st)
      case Fail(e) => Fail(e)
      case Done(st') => Scan(js, max, st')
  }

  const START := State(0, [], -1)

  function Parse(js: bytes, max: nat): Parsed {
    match Scan(js, max, START)
    case Fail(e) => Rejected(e)
    case Done(st) => if LastOpen(st.toks) != -1 then Rejected(Part) else Tokens(st.toks)
  }

  // ---------------------------------------------------------------- what every scan keeps

  /** Span `a` comes before span `b`: either it ends first, or it is a container that holds `b`. */
  predicate Laminar(a: Token, b: Token) {
    && a.start < b.start
    && (!IsOpen(a) ==> a.end <= b.start || (IsContainer(a.kind) && !IsOpen(b) && b.end < a.end))
  }

  /** The characters around a span are the ones its kind stands for. */
  predicate WellDelimited(js: bytes, t: Token, limit: nat) {
    && 0 <= t.start < limit <= |js|
    && (IsOpen(t) ==> IsContainer(t.kind))
    && (!IsOpen(t) ==> t.start <= t.end <= limit)
    && match t.kind
       case Object => js[t.start] == LBRACE && (!IsOpen(t) ==> t.start < t.end && js[t.end - 1] == RBRACE)
       case Array => js[t.start] == LBRACKET && (!IsOpen(t) ==> t.start < t.end && js[t.end - 1] == RBRACKET)
       case String => t.start > 0 && js[t.start - 1] == QUOTE && t.end < limit && js[t.end] == QUOTE
       case Primitive => t.start < t.end
       case Undefined => false
  }

  ghost predicate Inv(js: bytes, st: State) {
    && st.pos <= |js|
    && -1 <= st.super < |st.toks|
    && (forall i :: 0 <= i < |st.toks| ==> WellDelimited(js, st.toks[i], st.pos))
    && (forall i, j :: 0 <= i < j < |st.toks| ==> Laminar(st.toks[i], st.toks[j]))
  }

  /** A token appended at the end, after one more child is counted for `super`. */
  lemma AddKeepsInv(js: bytes, st: State, tok: Token, pos: nat)
    requires Inv(js, st) && st.pos <= tok.start && pos <= |js|
    requires WellDelimited(js, tok, pos)
    ensures Inv(js, State(pos, Grow(st.toks, st.super, 1) + [tok], st.super))
  {
    var toks := Grow(st.toks, st.super, 1) + [tok];
    forall i | 0 <= i < |toks| ensures WellDelimited(js, toks[i], pos) {
      if i < |st.toks| { assert WellDelimited(js, st.toks[i], st.pos); }
    }
    forall i, j | 0 <= i < j < |toks| ensures Laminar(toks[i], toks[j]) {
      assert WellDelimited(js, st.toks[i], st.pos);
      if j < |st.toks| { assert Laminar(st.toks[i], st.toks[j]); }
    }
  }

  /** A closing bracket ends the innermost open token. */
  lemma CloseKeepsInv(js: bytes, st: State, kind: Kind)
    requires Inv(js, st) && st.pos < |js| && CloseStep(st, kind).Done?
    requires (kind == Object && js[st.pos] == RBRACE) || (kind == Array && js[st.pos] == RBRACKET)
    ensures Inv(js, CloseStep(st, kind).state)
  {
    var toks := CloseStep(st, kind).state.toks;
    LastOpenIs(st.toks, LastOpen(st.toks));
    forall i | 0 <= i < |toks| ensures WellDelimited(js, toks[i], st.pos + 1) {
      assert WellDelimited(js, st.toks[i], st.pos);
    }
    forall i, j | 0 <= i < j < |toks| ensures Laminar(toks[i], toks[j]) {
      assert Laminar(st.toks[i], st.toks[j]);
      assert WellDelimited(js, st.toks[j], st.pos);
    }
  }

  /** Separators only move the position and the current parent. */
  lemma MoveKeepsInv(js: bytes, st: State, pos: nat, super: int)
    requires Inv(js, st) && st.pos <= pos <= |js| && -1 <= super < |st.toks|
    ensures Inv(js, State(pos, st.toks, super))
  {
    forall i | 0 <= i < |st.toks| ensures WellDelimited(js, st.toks[i], pos) {
      assert WellDelimited(js, st.toks[i], st.pos);
    }
  }

  lemma OpenKeepsInv(js: bytes, max: nat, st: State, kind: Kind)
    requires Inv(js, st) && st.pos < |js|
    requires (kind == Object && js[st.pos] == LBRACE) || (kind == Array && js[st.pos] == LBRACKET)
    requires OpenStep(st, max, kind).Done?
    ensures Inv(js, OpenStep(st, max, kind).state)
  {
    AddKeepsInv(js, st, Token(kind, st.pos, -1, 0), st.pos + 1);
  }

  lemma StringKeepsInv(js: bytes, max: nat, st: State)
    requires Inv(js, st) && st.pos < |js| && js[st.pos] == QUOTE && StringStep(js, max, st).Done?
    ensures Inv(js, StringStep(js, max, st).state)
  {
    var q := StringStop(js, st.pos + 1).at;
    AddKeepsInv(js, st, Token(String, st.pos + 1, q, 0), q + 1);
  }

  lemma PrimitiveKeepsInv(js: bytes, max: nat, st: State)
    requires Inv(js, st) && !AtEnd(js, st.pos) && !IsDelimiter(js[st.pos]) && PrimitiveStep(js, max, st).Done?
    ensures Inv(js, PrimitiveStep(js, max, st).state)
  {
    var q := PrimitiveStop(js, st.pos).at;
    AddKeepsInv(js, st, Token(Primitive, st.pos, q, 0), q);
  }

  lemma StepKeepsInv(js: bytes, max: nat, st: State)
    requires Inv(js, st) && !AtEnd(js, st.pos) && Step(js, max, st).Done?
    ensures Inv(js, Step(js, max, st).state)
  {
    var c := js[st.pos];
    if c == LBRACE { OpenKeepsInv(js, max, st, Object); }
    else if c == LBRACKET { OpenKeepsInv(js, max, st, Array); }
    else if c == RBRACE { CloseKeepsInv(js, st, Object); }
    else if c == RBRACKET { CloseKeepsInv(js, st, Array); }
    else if c == QUOTE { StringKeepsInv(js, max, st); }
    else if IsDelimiter(c) { MoveKeepsInv(js, st, st.pos + 1, SuperAfter(c, st)); }
    else { PrimitiveKeepsInv(js, max, st); }
  }

  lemma {:induction false} ScanKeepsInv(js: bytes, max: nat, st: State)
    requires Inv(js, st) && Scan(js, max, st).Done?
    ensures Inv(js, Scan(js, max, st).state)
    decreases |js| - st.pos
  {
    if !AtEnd(js, st.pos) {
      StepKeepsInv(js, max, st);
      ScanKeepsInv(js, max, Step(js, max, st).state);
    }
  }

  /** Whatever the bytes: an accepted text gives closed, delimited, nested-or-disjoint spans in order. */
  lemma ParseSound(js: bytes, max: nat)
    requires Parse(js, max).Tokens?
    ensures var toks := Parse(js, max).toks;
      && (forall i :: 0 <= i < |toks| ==> !IsOpen(toks[i]) && WellDelimited(js, toks[i], |js|))
      && (forall i, j :: 0 <= i < j < |toks| ==> Laminar(toks[i], toks[j]))
  {
    ScanKeepsInv(js, max, START);
    LastOpenIs(Parse(js, max).toks, -1);
  }
}
