/** The tokenizer as the program runs it: a parser object and a token table, both updated in place. */
module JsmnParser {
  import opened Bytes
  import opened Jsmn

  /** Offsets are 16-bit signed in the table, so longer texts are outside the program's domain. */
  const MAX_OFFSET := 32767

  class Parser {
    var pos: nat
    var toknext: nat
    var toksuper: int

    constructor ()
      ensures pos == 0 && toknext == 0 && toksuper == -1
    {
      pos, toknext, toksuper := 0, 0, -1;
    }

    ghost predicate Ready(tokens: array<Token>)
      reads this
    {
      toknext <= tokens.Length && -1 <= toksuper < toknext
    }

    /** The scan state that the object and the used part of the table stand for. */
    ghost function Now(tokens: array<Token>): State
      requires Ready(tokens)
      reads this, tokens
    {
      State(pos, tokens[..toknext], toksuper)
    }

    /** The entries behind the used part are what they were. */
    ghost predicate Untouched(tokens: array<Token>, before: seq<Token>)
      requires toknext <= tokens.Length
      reads this, tokens
    {
      |before| == tokens.Length && tokens[toknext..] == before[toknext..]
    }

    /** Takes the next free token; false when the table is full. */
    method AllocToken(tokens: array<Token>) returns (ok: bool)
      requires toknext <= tokens.Length
      modifies this`toknext, tokens
      ensures ok <==> old(toknext) < tokens.Length
      ensures toknext == old(toknext) + (if ok then 1 else 0)
      ensures ok ==> tokens[old(toknext)] == old(tokens[toknext]).(start := -1, end := -1, size := 0)
      ensures forall i :: 0 <= i < tokens.Length && (i != old(toknext) || !ok) ==> tokens[i] == old(tokens[i])
    {
      if toknext >= tokens.Length { return false; }
      tokens[toknext] := tokens[toknext].(start := -1, end := -1, size := 0);
      toknext := toknext + 1;
      return true;
    }

    /** Reads a primitive from `pos` and leaves `pos` on its last character. */
    method ParsePrimitive(js: bytes, tokens: array<Token>) returns (err: Option<Error>)
      requires Ready(tokens) && !AtEnd(js, pos) && !IsDelimiter(js[pos])
      modifies this, tokens
      ensures Ready(tokens) && toksuper == old(toksuper) && Untouched(tokens, old(tokens[..]))
      ensures err.Some? ==> pos == old(pos) && toknext == old(toknext)
      ensures match PrimitiveStop(js, old(pos))
        case Bad(e) => err == Some(e)
        case Found(q) =>
          if old(toknext) == tokens.Length then err == Some(NoMem)
          else err == None && pos == q - 1
               && tokens[..toknext] == old(tokens[..toknext]) + [Token(Primitive, old(pos), q, 0)]
    {
      var start := pos;
      while !AtEnd(js, pos)
        invariant start <= pos <= |js|
        invariant PrimitiveStop(js, pos) == PrimitiveStop(js, start)
        invariant toknext == old(toknext) && toksuper == old(toksuper) && tokens[..] == old(tokens[..])
        decreases |js| - pos
      {
        if IsDelimiter(js[pos]) { break; }
        if js[pos] < 32 || js[pos] >= 127 {
          pos := start;
          return Some(Inval);
        }
        pos := pos + 1;
      }
      assert PrimitiveStop(js, start) == Found(pos);
      var ok := AllocToken(tokens);
      if !ok {
        pos := start;
        return Some(NoMem);
      }
      tokens[toknext - 1] := Token(Primitive, start, pos, 0);
      pos := pos - 1;
      return None;
    }

    /** The four digits of a Unicode escape; fewer at the end of the text. */
    method SkipHex(js: bytes) returns (ok: bool)
      requires pos <= |js|
      modifies this`pos
      ensures ok == HexStop(js, old(pos), 4).Some? && (ok ==> HexStop(js, old(pos), 4) == Some(pos))
    {
      var i := 0;
      while i < 4 && !AtEnd(js, pos)
        invariant 0 <= i <= 4 && pos <= |js|
        invariant HexStop(js, pos, 4 - i) == HexStop(js, old(pos), 4)
      {
        if !IsHex(js[pos]) { return false; }
        pos := pos + 1;
        i := i + 1;
      }
      return true;
    }

    /** An escape from its backslash on; leaves `pos` on its last character. */
    method SkipEscape(js: bytes) returns (ok: bool)
      requires pos + 1 < |js| && js[pos] == BACKSLASH
      modifies this`pos
      ensures ok ==> old(pos) < pos < |js| && StringStop(js, old(pos)) == StringStop(js, pos + 1)
      ensures !ok ==> StringStop(js, old(pos)) == Bad(Inval)
    {
      ghost var at := pos;
      pos := pos + 1;
      if js[pos] == 117 {
        pos := pos + 1;
        ok := SkipHex(js);
        if !ok { return; }
        assert HexStop(js, at + 2, 4) == Some(pos);
        pos := pos - 1;
      } else if !IsEscape(js[pos]) {
        return false;
      }
      return true;
    }

    /** Reads a string whose opening quote is at `pos` and leaves `pos` on its closing quote. */
    method ParseString(js: bytes, tokens: array<Token>) returns (err: Option<Error>)
      requires Ready(tokens) && pos < |js|
      modifies this, tokens
      ensures Ready(tokens) && toksuper == old(toksuper) && Untouched(tokens, old(tokens[..]))
      ensures err.Some? ==> pos == old(pos) && toknext == old(toknext)
      ensures match StringStop(js, old(pos) + 1)
        case Bad(e) => err == Some(e)
        case Found(q) =>
          if old(toknext) == tokens.Length then err == Some(NoMem)
          else err == None && pos == q
               && tokens[..toknext] == old(tokens[..toknext]) + [Token(String, old(pos) + 1, q, 0)]
    {
      var start := pos;
      pos := pos + 1;
      while !AtEnd(js, pos)
        invariant start < pos <= |js|
        invariant StringStop(js, pos) == StringStop(js, start + 1)
        invariant toknext == old(toknext) && toksuper == old(toksuper) && tokens[..] == old(tokens[..])
        decreases |js| - pos
      {
        var c := js[pos];
        if c == QUOTE {
          var ok := AllocToken(tokens);
          if !ok {
            pos := start;
            return Some(NoMem);
          }
          tokens[toknext - 1] := Token(String, start + 1, pos, 0);
          return None;
        }
        if c == BACKSLASH && pos + 1 < |js| {
          var ok := SkipEscape(js);
          if !ok {
            pos := start;
            return Some(Inval);
          }
        }
        pos := pos + 1;
      }
      pos := start;
      return Some(Part);
    }

    /** The last open token at or below index `from`, or -1. */
    method FindOpen(tokens: array<Token>, from: int) returns (i: int)
      requires toknext <= tokens.Length && -1 <= from < toknext
      ensures i == LastOpenBelow(tokens[..toknext], from + 1)
    {
      i := from;
      while i >= 0 && !IsOpen(tokens[i])
        invariant -1 <= i <= from
        invariant LastOpenBelow(tokens[..toknext], i + 1) == LastOpenBelow(tokens[..toknext], from + 1)
      {
        i := i - 1;
      }
    }

    /** A bracket that closes the innermost open container of its kind. */
    method CloseContainer(kind: Kind, tokens: array<Token>) returns (err: Option<Error>)
      requires Ready(tokens)
      modifies this`toksuper, tokens
      ensures Ready(tokens) && Untouched(tokens, old(tokens[..]))
      ensures match CloseStep(old(Now(tokens)), kind)
        case Fail(e) => err == Some(e)
        case Done(st) => err == None && Now(tokens) == st.(pos := old(pos))
    {
      var i := FindOpen(tokens, toknext - 1);
      if i == -1 || tokens[i].kind != kind { return Some(Inval); }
      ghost var before := tokens[..toknext];
      toksuper := -1;
      tokens[i] := tokens[i].(end := pos + 1);
      toksuper := FindOpen(tokens, i);
      assert tokens[..toknext] == before[i := before[i].(end := pos + 1)];
      Closes(before, i, pos + 1);
      return None;
    }

    /** One more child for the current parent. */
    method CountChild(tokens: array<Token>)
      requires Ready(tokens)
      modifies tokens
      ensures tokens[..toknext] == Grow(old(tokens[..toknext]), toksuper, 1) && Untouched(tokens, old(tokens[..]))
    {
      if toksuper != -1 {
        tokens[toksuper] := tokens[toksuper].(size := tokens[toksuper].size + 1);
      }
    }

    /** A comma behind a key makes the innermost open container the parent again. */
    method LeaveKey(tokens: array<Token>)
      requires Ready(tokens)
      requires forall i :: 0 <= i < toknext && IsOpen(tokens[i]) ==> IsContainer(tokens[i].kind)
      modifies this`toksuper
      ensures Ready(tokens) && toksuper == SuperAfter(COMMA, old(Now(tokens)))
    {
      if toksuper != -1 && !IsContainer(tokens[toksuper].kind) {
        var i := toknext - 1;
        while i >= 0
          invariant -1 <= i < toknext && toksuper == old(toksuper)
          invariant LastOpenBelow(tokens[..toknext], i + 1) == LastOpen(tokens[..toknext])
        {
          if IsContainer(tokens[i].kind) && IsOpen(tokens[i]) {
            toksuper := i;
            break;
          }
          i := i - 1;
        }
      }
    }

    /** The opener of a container at `pos`. */
    method OpenContainer(kind: Kind, tokens: array<Token>) returns (err: Option<Error>)
      requires Ready(tokens)
      modifies this, tokens
      ensures Ready(tokens) && pos == old(pos) && Untouched(tokens, old(tokens[..]))
      ensures match OpenStep(old(Now(tokens)), tokens.Length, kind)
        case Fail(e) => err == Some(e)
        case Done(st) => err == None && Now(tokens) == st.(pos := old(pos))
    {
      var ok := AllocToken(tokens);
      if !ok { return Some(NoMem); }
      ghost var before := tokens[..toknext - 1];
      if toksuper != -1 {
        tokens[toksuper] := tokens[toksuper].(size := tokens[toksuper].size + 1);
      }
      tokens[toknext - 1] := tokens[toknext - 1].(kind := kind, start := pos);
      assert tokens[..toknext] == Grow(before, toksuper, 1) + [Token(kind, pos, -1, 0)];
      toksuper := toknext - 1;
      return None;
    }

    method StringToken(js: bytes, tokens: array<Token>) returns (err: Option<Error>)
      requires Ready(tokens) && pos < |js|
      modifies this, tokens
      ensures Ready(tokens) && Untouched(tokens, old(tokens[..]))
      ensures match StringStep(js, tokens.Length, old(Now(tokens)))
        case Fail(e) => err == Some(e)
        case Done(st) => err == None && Now(tokens) == st.(pos := st.pos - 1)
    {
      err := ParseString(js, tokens);
      if err == None { CountChild(tokens); }
    }

    method PrimitiveToken(js: bytes, tokens: array<Token>) returns (err: Option<Error>)
      requires Ready(tokens) && !AtEnd(js, pos) && !IsDelimiter(js[pos])
      modifies this, tokens
      ensures Ready(tokens) && Untouched(tokens, old(tokens[..]))
      ensures match PrimitiveStep(js, tokens.Length, old(Now(tokens)))
        case Fail(e) => err == Some(e)
        case Done(st) => err == None && Now(tokens) == st.(pos := st.pos - 1)
    {
      err := ParsePrimitive(js, tokens);
      if err == None { CountChild(tokens); }
    }

    /** One character of the main loop, without the final step to the next one. */
    method Dispatch(js: bytes, tokens: array<Token>) returns (err: Option<Error>)
      requires Ready(tokens) && !AtEnd(js, pos)
      requires forall i :: 0 <= i < toknext && IsOpen(tokens[i]) ==> IsContainer(tokens[i].kind)
      modifies this, tokens
      ensures Ready(tokens) && Untouched(tokens, old(tokens[..]))
      ensures match Step(js, tokens.Length, old(Now(tokens)))
        case Fail(e) => err == Some(e)
        case Done(st) => err == None && Now(tokens) == st.(pos := st.pos - 1)
    {
      var c := js[pos];
      err := None;
      if c == LBRACE {
        err := OpenContainer(Object, tokens);
      } else if c == LBRACKET {
        err := OpenContainer(Array, tokens);
      } else if c == RBRACE {
        err := CloseContainer(Object, tokens);
      } else if c == RBRACKET {
        err := CloseContainer(Array, tokens);
      } else if c == QUOTE {
        err := StringToken(js, tokens);
      } else if c == COLON {
        toksuper := toknext - 1;
      } else if c == COMMA {
        LeaveKey(tokens);
      } else if !IsSpace(c) {
        err := PrimitiveToken(js, tokens);
      }
    }

    /** The whole scan: the number of tokens, or why the text was refused. */
    method Parse(js: bytes, tokens: array<Token>) returns (count: nat, err: Option<Error>)
      requires pos == 0 && toknext == 0 && toksuper == -1
      requires |js| <= MAX_OFFSET && tokens.Length <= MAX_OFFSET
      modifies this, tokens
      ensures match Jsmn.Parse(js, tokens.Length)
        case Rejected(e) => err == Some(e)
        case Tokens(toks) =>
          && err == None && toknext <= tokens.Length && count == toknext && tokens[..toknext] == toks
          && Untouched(tokens, old(tokens[..]))
    {
      hide Step;
      err, count := None, toknext;
      ghost var max := tokens.Length;
      assert Now(tokens) == START;
      while !AtEnd(js, pos)
        invariant Ready(tokens) && Inv(js, Now(tokens)) && count == toknext && Untouched(tokens, old(tokens[..]))
        invariant Scan(js, max, Now(tokens)) == Scan(js, max, START)
        invariant err == None
        decreases |js| - pos
      {
        ghost var st := Now(tokens);
        assert forall i :: 0 <= i < toknext ==> WellDelimited(js, st.toks[i], pos);
        if !IsDelimiter(js[pos]) { count := count + 1; }
        err := Dispatch(js, tokens);
        if err != None { return; }
        StepKeepsInv(js, max, st);
        pos := pos + 1;
        StepCounts(js, max, st);
      }
      var i := FindOpen(tokens, toknext - 1);
      if i >= 0 { err := Some(Part); }
      assert Scan(js, max, START) == Done(Now(tokens));
    }
  }

  /** Behind the token that is closed there is no open one, so the search for the next can start there. */
  lemma Closes(toks: seq<Token>, i: nat, end: nat)
    requires LastOpen(toks) == i
    ensures var closed := toks[i := toks[i].(end := end)]; LastOpen(closed) == LastOpenBelow(closed, i + 1)
  {
    var closed := toks[i := toks[i].(end := end)];
    var j := LastOpenBelow(closed, i + 1);
    LastOpenIs(toks, i);
    LastOpenBelowIs(closed, i + 1, j);
    LastOpenIs(closed, j);
  }

  /** A step allocates one token exactly when the character is no closer and no separator. */
  lemma StepCounts(js: bytes, max: nat, st: State)
    requires -1 <= st.super < |st.toks| && !AtEnd(js, st.pos) && Step(js, max, st).Done?
    ensures |Step(js, max, st).state.toks| == |st.toks| + if IsDelimiter(js[st.pos]) then 0 else 1
  {
  }
}
