/**
 * Where strings and literals end, on any bytes. The scans of the tokenizer are proved to accept and to refuse
 * exactly what the character sets of RFC 8259 say; a NUL ends the text.
 */
module JsonLexemes {
  import opened Bytes
  import opened Jsmn
  import opened JsonTree

  predicate Ends(js: bytes, i: nat) { i >= |js| || js[i] == 0 }

  /** The string whose body starts at `i` has its closing quote at `q`. */
  predicate ClosesAt(js: bytes, i: nat, q: nat) { i <= q < |js| && IsBody(js[i..q]) && js[q] == 34 }

  predicate AreHex(js: bytes, i: nat, e: nat) {
    e <= |js| && forall j :: i <= j < e ==> IsHexDigit(js[j])
  }

  /** The first character from `i` on that is no hexadecimal digit is at `e`, and the text does not end there. */
  predicate HexFails(js: bytes, i: nat, e: nat) {
    i <= e && AreHex(js, i, e) && !Ends(js, e) && !IsHexDigit(js[e])
  }

  predicate HexFailsWithin(js: bytes, i: nat, n: nat) { exists e :: i <= e < i + n && HexFails(js, i, e) }

  /** A backslash at `q` that starts no escape, and has a character behind it. */
  predicate BadEscape(js: bytes, q: nat) {
    && q + 1 < |js| && js[q] == 92 && !IsEscapeLetter(js[q + 1])
    && (js[q + 1] == 117 ==> HexFailsWithin(js, q + 2, 4))
  }

  predicate FailsAt(js: bytes, i: nat, q: nat) { i <= q <= |js| && IsBody(js[i..q]) && BadEscape(js, q) }

  lemma {:induction false} HexStopIs(js: bytes, i: nat, n: nat)
    requires i <= |js|
    ensures var stop := HexStop(js, i, n);
      && (stop.None? <==> HexFailsWithin(js, i, n))
      && (stop.Some? ==> i <= stop.value <= i + n && AreHex(js, i, stop.value)
                         && (stop.value == i + n || Ends(js, stop.value)))
    decreases n
  {
    if n > 0 && !AtEnd(js, i) {
      if IsHex(js[i]) {
        HexStopIs(js, i + 1, n - 1);
        if e :| i <= e < i + n && HexFails(js, i, e) { assert HexFails(js, i + 1, e); }
        var j := i + 1;
        if e :| j <= e < i + n && HexFails(js, j, e) { assert HexFails(js, i, e); }
      } else {
        assert HexFails(js, i, i);
      }
    }
  }

  /** A character or an escape that is read as one. */
  predicate IsUnit(js: bytes, i: nat, n: nat) {
    i + n <= |js| && n > 0
    && if js[i] != 92 then n == 1 && js[i] != 0 && js[i] != 34
       else if n == 2 then IsEscapeLetter(js[i + 1])
       else n == 6 && js[i + 1] == 117 && AreHex(js, i + 2, i + 6)
  }

  /** Bodies go on behind their first unit. */
  lemma BodyUnit(js: bytes, i: nat, n: nat, q: nat)
    requires IsUnit(js, i, n) && i < q <= |js|
    ensures IsBody(js[i..q]) <==> q >= i + n && IsBody(js[i + n..q])
  {
    var s := js[i..q];
    if q >= i + n { assert s[n..] == js[i + n..q]; }
    if q >= i + 2 { assert s[1] == js[i + 1]; }
    if q >= i + 6 {
      assert s[2] == js[i + 2] && s[3] == js[i + 3] && s[4] == js[i + 4] && s[5] == js[i + 5];
    }
  }

  lemma StopUnit(js: bytes, i: nat, n: nat)
    requires IsUnit(js, i, n) && StringStop(js, i) == StringStop(js, i + n) && StopsRight(js, i + n)
    ensures StopsRight(js, i)
  {
    hide StringStop, IsBody, BadEscape;
    forall q: nat ensures ClosesAt(js, i, q) == ClosesAt(js, i + n, q) && FailsAt(js, i, q) == FailsAt(js, i + n, q) {
      UnitIsNoEnd(js, i, n);
      if i < q <= |js| { BodyUnit(js, i, n, q); }
    }
    if q :| FailsAt(js, i, q) { assert FailsAt(js, i + n, q); }
    var j := i + n;
    if q :| FailsAt(js, j, q) { assert FailsAt(js, i, q); }
  }

  /** No string ends and no escape fails where a unit starts. */
  lemma UnitIsNoEnd(js: bytes, i: nat, n: nat)
    requires IsUnit(js, i, n)
    ensures js[i] != 34 && !BadEscape(js, i)
  {
  }

  /** The scan from `i` on closes exactly where a string does, and fails exactly at a bad escape. */
  ghost predicate StopsRight(js: bytes, i: nat)
    requires i <= |js|
  {
    && (forall q: nat :: StringStop(js, i) == Found(q) <==> ClosesAt(js, i, q))
    && (StringStop(js, i) == Bad(Inval) <==> exists q :: FailsAt(js, i, q))
    && StringStop(js, i) != Bad(NoMem)
  }

  /** The text ends within the four digits of an escape. */
  predicate CutShort(js: bytes, i: nat) {
    && i + 1 < |js| && js[i] == 92 && js[i + 1] == 117
    && exists e :: i + 2 <= e < i + 6 && AreHex(js, i + 2, e) && Ends(js, e)
  }

  /** What no unit starts with: the end of the text, a quote, or a backslash that is not followed by an escape. */
  predicate IsStuck(js: bytes, i: nat) {
    Ends(js, i) || js[i] == 34 || (i + 1 == |js| && js[i] == 92) || BadEscape(js, i) || CutShort(js, i)
  }

  /** Where no unit starts, the only body is the empty one. */
  lemma NoUnit(js: bytes, i: nat)
    requires i <= |js| && IsStuck(js, i)
    ensures forall q :: i < q <= |js| ==> !IsBody(js[i..q])
  {
    forall q | i < q <= |js| ensures !IsBody(js[i..q]) {
      var s := js[i..q];
      if |s| >= 2 { assert s[1] == js[i + 1]; }
      if |s| >= 6 {
        assert s[2] == js[i + 2] && s[3] == js[i + 3] && s[4] == js[i + 4] && s[5] == js[i + 5];
      }
    }
  }

  lemma StopsHere(js: bytes, i: nat)
    requires i <= |js| && IsStuck(js, i)
    requires StringStop(js, i)
          == if i < |js| && js[i] == 34 then Found(i) else Bad(if BadEscape(js, i) then Inval else Part)
    ensures StopsRight(js, i)
  {
    hide StringStop, BadEscape, CutShort;
    NoUnit(js, i);
    assert js[i..i] == [];
    if BadEscape(js, i) { assert FailsAt(js, i, i) && js[i] != 34 by { BadIsNoQuote(js, i); } }
    if q :| FailsAt(js, i, q) { assert q == i; }
  }

  lemma BadIsNoQuote(js: bytes, i: nat)
    requires BadEscape(js, i)
    ensures i < |js| && js[i] != 34
  {
  }

  lemma {:induction false} StringStopIs(js: bytes, i: nat)
    requires i <= |js|
    ensures StopsRight(js, i)
    decreases |js| - i
  {
    hide StopsRight, IsBody;
    if AtEnd(js, i) || js[i] == 34 || (js[i] == 92 && i + 1 == |js|) {
      StopsHere(js, i);
    } else if js[i] != 92 {
      StringStopIs(js, i + 1);
      StopUnit(js, i, 1);
    } else if IsEscapeLetter(js[i + 1]) {
      StringStopIs(js, i + 2);
      StopUnit(js, i, 2);
    } else if js[i + 1] != 117 {
      StopsHere(js, i);
    } else {
      UnicodeStopIs(js, i);
      if IsUnit(js, i, 6) {
        StringStopIs(js, i + 6);
        StopUnit(js, i, 6);
      } else {
        StopsHere(js, i);
      }
    }
  }

  lemma UnicodeStopIs(js: bytes, i: nat)
    requires i + 1 < |js| && js[i] == 92 && js[i + 1] == 117
    ensures if IsUnit(js, i, 6) then StringStop(js, i) == StringStop(js, i + 6)
            else IsStuck(js, i) && StringStop(js, i) == Bad(if BadEscape(js, i) then Inval else Part)
  {
    HexStopIs(js, i + 2, 4);
    var stop := HexStop(js, i + 2, 4);
    if stop.Some? && stop.value != i + 6 { assert CutShort(js, i) && !BadEscape(js, i); }
  }

  /**
   * A string, on any bytes: the scan finds the quote that closes a body of the grammar; it calls the text invalid
   * exactly when a body is followed by a bad escape; and in all other cases the text ends too early.
   */
  lemma StringExactly(js: bytes, i: nat, q: nat)
    requires i <= |js|
    ensures StringStop(js, i) == Found(q) <==> ClosesAt(js, i, q)
    ensures StringStop(js, i) == Bad(Inval) <==> exists e :: FailsAt(js, i, e)
    ensures StringStop(js, i) != Bad(NoMem)
  {
    StringStopIs(js, i);
  }

  /** What ends a literal: the end of the text, a blank, or one of : , ] }. */
  predicate EndsLiteralAt(js: bytes, q: nat) {
    Ends(js, q) || IsBlankChar(js[q]) || js[q] == 58 || js[q] == 44 || js[q] == 93 || js[q] == 125
  }

  predicate LiteralTo(js: bytes, i: nat, q: nat) {
    i <= q <= |js| && (forall k :: i <= k < q ==> IsLiteralChar(js[k])) && EndsLiteralAt(js, q)
  }

  /** A literal, on any bytes: up to the first character that ends it, and invalid if another one comes first. */
  lemma {:induction false} LiteralExactly(js: bytes, i: nat, q: nat)
    requires i <= |js|
    ensures PrimitiveStop(js, i) == Found(q) <==> LiteralTo(js, i, q)
    ensures PrimitiveStop(js, i).Bad? ==> PrimitiveStop(js, i).error == Inval
    decreases |js| - i
  {
    if i < |js| && IsLiteralChar(js[i]) { LiteralExactly(js, i + 1, q); }
  }
}
