/**
 * What the table of any accepted text stands for. Brackets are matched here with an explicit stack, which is
 * the definition of a matching closer; the tokenizer has no stack, and searches the table for open tokens.
 */
module JsonBrackets {
  import opened Bytes
  import opened Jsmn
  import opened JsonEvents

  /** A container, from its opening bracket to behind its closing one. */
  datatype Span = Span(kind: Kind, start: int, end: int)

  /** An opening bracket that is not closed yet. */
  datatype Opener = Opener(kind: Kind, at: int)

  /** What becomes of a list of events: the containers and the literals in it, or why it is refused. */
  datatype Matching = Matched(spans: multiset<Span>, literals: seq<Token>) | Unmatched(error: Error)

  function Plus(span: Span, m: Matching): Matching {
    if m.Matched? then m.(spans := multiset{span} + m.spans) else m
  }

  function Behind(literal: Token, m: Matching): Matching {
    if m.Matched? then m.(literals := [literal] + m.literals) else m
  }

  /**
   * Every opening bracket and every literal takes one of `room` entries, every closer takes the last bracket off the
   * stack.
   */
  function Match(es: Events, room: nat, stack: seq<Opener>): Matching {
    match es
    case Stop(Some(e)) => Unmatched(e)
    case Stop(None) => if stack == [] then Matched(multiset{}, []) else Unmatched(Part)
    case More(Begin(kind, at), rest) =>
      if room == 0 then Unmatched(NoMem) else Match(rest, room - 1, stack + [Opener(kind, at)])
    case More(End(kind, at), rest) =>
      if stack == [] || stack[|stack| - 1].kind != kind then Unmatched(Inval)
      else Plus(Span(kind, stack[|stack| - 1].at, at + 1), Match(rest, room, stack[..|stack| - 1]))
    case More(Leaf(tok), rest) =>
      if room == 0 then Unmatched(NoMem) else Behind(tok, Match(rest, room - 1, stack))
    case More(_, rest) => Match(rest, room, stack)
  }

  // ---------------------------------------------------------------- what a table holds, sizes aside

  function Bare(t: Token): Token { t.(size := 0) }

  predicate SameButSizes(a: seq<Token>, b: seq<Token>) {
    |a| == |b| && forall i :: 0 <= i < |a| ==> Bare(a[i]) == Bare(b[i])
  }

  function AsOpener(t: Token): seq<Opener> { if IsOpen(t) then [Opener(t.kind, t.start)] else [] }

  function AsLiteral(t: Token): seq<Token> { if IsContainer(t.kind) then [] else [Bare(t)] }

  function AsSpan(t: Token): multiset<Span> {
    if IsContainer(t.kind) && !IsOpen(t) then multiset{Span(t.kind, t.start, t.end)} else multiset{}
  }

  function SpansOf(toks: seq<Token>): multiset<Span> {
    if toks == [] then multiset{}
    else SpansOf(toks[..|toks| - 1]) + AsSpan(toks[|toks| - 1])
  }

  function LiteralsOf(toks: seq<Token>): seq<Token> {
    if toks == [] then []
    else LiteralsOf(toks[..|toks| - 1]) + AsLiteral(toks[|toks| - 1])
  }

  /** The open tokens, as a stack. */
  function StackOf(toks: seq<Token>): seq<Opener> {
    if toks == [] then []
    else StackOf(toks[..|toks| - 1]) + AsOpener(toks[|toks| - 1])
  }

  /** Only containers are open. */
  predicate OnlyContainersOpen(toks: seq<Token>) {
    forall i :: 0 <= i < |toks| && IsOpen(toks[i]) ==> IsContainer(toks[i].kind)
  }

  lemma {:induction false} SizesDoNotMatter(a: seq<Token>, b: seq<Token>)
    requires SameButSizes(a, b)
    ensures SpansOf(a) == SpansOf(b) && LiteralsOf(a) == LiteralsOf(b) && StackOf(a) == StackOf(b)
    decreases |a|
  {
    if a != [] {
      var n := |a| - 1;
      SizesDoNotMatter(a[..n], b[..n]);
      assert Bare(a[n]) == Bare(b[n]);
      assert a[n].kind == Bare(a[n]).kind && a[n].start == Bare(a[n]).start && a[n].end == Bare(a[n]).end;
    }
  }

  lemma Snoc(toks: seq<Token>, t: Token)
    ensures StackOf(toks + [t]) == StackOf(toks) + AsOpener(t)
    ensures LiteralsOf(toks + [t]) == LiteralsOf(toks) + AsLiteral(t)
    ensures SpansOf(toks + [t]) == SpansOf(toks) + AsSpan(t)
  {
    assert (toks + [t])[..|toks|] == toks;
  }

  /** A token more, after a child more is counted. */
  lemma Appended(toks: seq<Token>, top: int, t: Token)
    requires -1 <= top < |toks| && OnlyContainersOpen(toks) && (IsOpen(t) ==> IsContainer(t.kind))
    ensures var next := Grow(toks, top, 1) + [t];
      && OnlyContainersOpen(next) && StackOf(next) == StackOf(toks) + AsOpener(t)
      && LiteralsOf(next) == LiteralsOf(toks) + AsLiteral(t) && SpansOf(next) == SpansOf(toks) + AsSpan(t)
  {
    hide SpansOf, LiteralsOf, StackOf, AsOpener, AsLiteral, AsSpan;
    SizesDoNotMatter(toks, Grow(toks, top, 1));
    Snoc(Grow(toks, top, 1), t);
  }

  lemma {:induction false} NothingOpen(toks: seq<Token>)
    ensures StackOf(toks) == [] <==> LastOpen(toks) == -1
    decreases |toks|
  {
    if toks != [] {
      var n := |toks| - 1;
      NothingOpen(toks[..n]);
      LastOpenPrefix(toks, n);
    }
  }

  lemma {:induction false} LastOpenPrefix(toks: seq<Token>, n: nat)
    requires n <= |toks|
    ensures LastOpenBelow(toks, n) == LastOpen(toks[..n])
    decreases n
  {
    var i := LastOpen(toks[..n]);
    LastOpenIs(toks[..n], i);
    forall j | i < j < n ensures !IsOpen(toks[j]) { assert toks[j] == toks[..n][j]; }
    LastOpenBelowIs(toks, n, i);
  }

  /** Closing the last open token takes it off the stack. */
  lemma {:induction false} Closed(toks: seq<Token>, end: nat)
    requires LastOpen(toks) != -1 && OnlyContainersOpen(toks)
    ensures var i := LastOpen(toks);
      var t, next, stack := toks[i], toks[i := toks[i].(end := end)], StackOf(toks);
      && OnlyContainersOpen(next)
      && stack != [] && stack[|stack| - 1] == Opener(t.kind, t.start) && StackOf(next) == stack[..|stack| - 1]
      && SpansOf(next) == SpansOf(toks) + multiset{Span(t.kind, t.start, end)} && LiteralsOf(next) == LiteralsOf(toks)
    decreases |toks|
  {
    hide SpansOf, LiteralsOf, StackOf, LastOpen;
    var i, n := LastOpen(toks), |toks| - 1;
    var before, t := toks[..n], toks[n];
    LastOpenIs(toks, i);
    assert toks == before + [t];
    Snoc(before, t);
    if i == n {
      assert toks[i := t.(end := end)] == before + [t.(end := end)];
      Snoc(before, t.(end := end));
    } else {
      LastOpenIs(before, i);
      Closed(before, end);
      var closed := before[i := toks[i].(end := end)];
      assert toks[i := toks[i].(end := end)] == closed + [t];
      Snoc(closed, t);
    }
  }

  /** Only containers begin; literals come closed and without children. */
  predicate AreProper(es: Events) {
    match es
    case Stop(_) => true
    case More(Begin(kind, _), rest) => IsContainer(kind) && AreProper(rest)
    case More(Leaf(t), rest) => !IsOpen(t) && !IsContainer(t.kind) && t.size == 0 && AreProper(rest)
    case More(_, rest) => AreProper(rest)
  }

  lemma {:induction false} LexProper(js: bytes, i: nat)
    ensures AreProper(Lex(js, i))
    decreases |js| - i
  {
    if !AtEnd(js, i) {
      var c := js[i];
      if c == QUOTE {
        if StringStop(js, i + 1).Found? { LexProper(js, StringStop(js, i + 1).at + 1); }
      } else if IsDelimiter(c) || c == LBRACE || c == LBRACKET {
        LexProper(js, i + 1);
      } else if PrimitiveStop(js, i).Found? {
        LexProper(js, PrimitiveStop(js, i).at);
      }
    }
  }

  // ---------------------------------------------------------------- the table refines the stack

  /** The outcome of building a table, put as a matching. */
  function Outcome(b: Built): Matching {
    if b.Err? then Unmatched(b.error)
    else if LastOpen(b.toks) != -1 then Unmatched(Part)
    else Matched(SpansOf(b.toks), LiteralsOf(b.toks))
  }

  /** What is in a table already, together with a matching of what follows. */
  function With(toks: seq<Token>, m: Matching): Matching {
    if m.Matched? then Matched(SpansOf(toks) + m.spans, LiteralsOf(toks) + m.literals) else m
  }

  lemma AfterOpening(toks: seq<Token>, top: int, kind: Kind, at: nat, m: Matching)
    requires -1 <= top < |toks| && OnlyContainersOpen(toks) && IsContainer(kind)
    ensures var next := Grow(toks, top, 1) + [Token(kind, at, -1, 0)];
      OnlyContainersOpen(next) && StackOf(next) == StackOf(toks) + [Opener(kind, at)] && With(next, m) == With(toks, m)
  {
    hide SpansOf, LiteralsOf, StackOf, OnlyContainersOpen, Grow;
    Appended(toks, top, Token(kind, at, -1, 0));
    assert LiteralsOf(toks) + [] == LiteralsOf(toks);
  }

  lemma AfterLiteral(toks: seq<Token>, top: int, t: Token, m: Matching)
    requires -1 <= top < |toks| && OnlyContainersOpen(toks) && !IsOpen(t) && !IsContainer(t.kind) && t.size == 0
    ensures var next := Grow(toks, top, 1) + [t];
      OnlyContainersOpen(next) && StackOf(next) == StackOf(toks) && With(next, m) == With(toks, Behind(t, m))
  {
    hide SpansOf, LiteralsOf, StackOf, OnlyContainersOpen, Grow;
    Appended(toks, top, t);
    assert StackOf(toks) + [] == StackOf(toks);
    if m.Matched? { assert LiteralsOf(toks) + [t] + m.literals == LiteralsOf(toks) + ([t] + m.literals); }
  }

  lemma AfterClosing(toks: seq<Token>, end: nat, m: Matching)
    requires LastOpen(toks) != -1 && OnlyContainersOpen(toks)
    ensures var i := LastOpen(toks);
      var t, next, stack := toks[i], toks[i := toks[i].(end := end)], StackOf(toks);
      && OnlyContainersOpen(next) && stack != [] && stack[|stack| - 1] == Opener(t.kind, t.start)
      && StackOf(next) == stack[..|stack| - 1] && With(next, m) == With(toks, Plus(Span(t.kind, t.start, end), m))
  {
    hide SpansOf, LiteralsOf, StackOf, OnlyContainersOpen, LastOpen;
    Closed(toks, end);
  }

  lemma {:induction false} BuildMatches(es: Events, max: nat, toks: seq<Token>, top: int)
    requires -1 <= top < |toks| <= max && OnlyContainersOpen(toks) && AreProper(es)
    ensures Outcome(Build(es, max, toks, top)) == With(toks, Match(es, max - |toks|, StackOf(toks)))
    decreases es
  {
    hide SpansOf, LiteralsOf, StackOf, LastOpen, OnlyContainersOpen, With, Plus, Behind, Outcome;
    match es
    case Stop(_) => Ended(es, max, toks, top);
    case More(Begin(kind, at), rest) =>
      if |toks| < max {
        AfterOpening(toks, top, kind, at, Match(rest, max - |toks| - 1, StackOf(toks) + [Opener(kind, at)]));
        BuildMatches(rest, max, Grow(toks, top, 1) + [Token(kind, at, -1, 0)], |toks|);
      } else {
        Failed(toks, NoMem);
      }
    case More(End(kind, at), rest) =>
      var i := LastOpen(toks);
      NothingOpen(toks);
      Failed(toks, Inval);
      if i != -1 {
        var next, stack := toks[i := toks[i].(end := at + 1)], StackOf(toks);
        AfterClosing(toks, at + 1, Match(rest, max - |toks|, stack[..|stack| - 1]));
        if toks[i].kind == kind { BuildMatches(rest, max, next, LastOpen(next)); }
      }
    case More(Leaf(tok), rest) =>
      if |toks| < max {
        AfterLiteral(toks, top, tok, Match(rest, max - |toks| - 1, StackOf(toks)));
        BuildMatches(rest, max, Grow(toks, top, 1) + [tok], top);
      } else {
        Failed(toks, NoMem);
      }
    case More(Colon, rest) => BuildMatches(rest, max, toks, |toks| - 1);
    case More(Comma, rest) =>
      BuildMatches(rest, max, toks,
        if top != -1 && !IsContainer(toks[top].kind) && LastOpen(toks) != -1 then LastOpen(toks) else top);
  }

  lemma Failed(toks: seq<Token>, e: Error)
    ensures Outcome(Err(e)) == With(toks, Unmatched(e))
  {
  }

  lemma Ended(es: Events, max: nat, toks: seq<Token>, top: int)
    requires es.Stop? && -1 <= top < |toks| <= max
    ensures Outcome(Build(es, max, toks, top)) == With(toks, Match(es, max - |toks|, StackOf(toks)))
  {
    hide SpansOf, LiteralsOf, StackOf, LastOpen;
    NothingOpen(toks);
    assert LiteralsOf(toks) + [] == LiteralsOf(toks);
  }

  /**
   * Any bytes: the tokenizer refuses them exactly when the matching does, with the same error. When it accepts
   * them, its containers are the matched pairs of brackets of the main loop, no more and no fewer, and its
   * literals are those read, in order; and the table lists all of them by their start, nested or disjoint.
   */
  lemma ParseMatches(js: bytes, max: nat)
    ensures match Parse(js, max)
      case Rejected(e) => Match(Lex(js, 0), max, []) == Unmatched(e)
      case Tokens(toks) =>
        && Match(Lex(js, 0), max, []) == Matched(SpansOf(toks), LiteralsOf(toks))
        && |toks| == |SpansOf(toks)| + |LiteralsOf(toks)|
        && forall i, j :: 0 <= i < j < |toks| ==> Laminar(toks[i], toks[j])
  {
    hide Lex, Match, Build;
    ScanIsBuild(js, max, START);
    LexProper(js, 0);
    BuildMatches(Lex(js, 0), max, [], -1);
    if Parse(js, max).Tokens? {
      var toks := Parse(js, max).toks;
      ParseSound(js, max);
      LastOpenIs(toks, -1);
      SpansAndLiterals(toks);
    }
  }

  lemma {:induction false} SpansAndLiterals(toks: seq<Token>)
    requires forall i :: 0 <= i < |toks| ==> !IsOpen(toks[i])
    ensures |SpansOf(toks)| + |LiteralsOf(toks)| == |toks|
  {
    if toks != [] { SpansAndLiterals(toks[..|toks| - 1]); }
  }
}
