/** Long values on several pages, as text and as hexadecimal (deps/ledger-zxlib/include/zxformat.h). */
module Paging {
  import opened Bytes

  /** The number of pages of `chunk` bytes for `n` bytes. */
  function Pages(n: nat, chunk: nat): nat
    requires chunk > 0
  {
    n / chunk + if n % chunk > 0 then 1 else 0
  }

  /** The page count as the program keeps it, in 8 bits. */
  function PageCount(n: nat, chunk: nat): byte
    requires chunk > 0
  {
    (n / chunk % 256 + if n % chunk > 0 then 1 else 0) % 256
  }

  /** The part of the value on a page; the last page may be shorter. */
  function Part(value: bytes, chunk: nat, page: nat): bytes
    requires chunk > 0
  {
    var from, to := page * chunk, (page + 1) * chunk;
    if to <= |value| then value[from..to] else if from <= |value| then value[from..] else []
  }

  /** What the program copies for a page: nothing behind the count, and less on what it takes for the last page. */
  function Shown(value: bytes, chunk: nat, page: byte): bytes
    requires chunk > 0
  {
    var count, last := PageCount(|value|, chunk), |value| % chunk;
    if page >= count then []
    else
      var part := Part(value, chunk, page);
      if last > 0 && page == count - 1 then part[..if last <= |part| then last else 0] else part
  }

  lemma Division(n: nat, chunk: nat)
    requires chunk > 0
    ensures n == n / chunk * chunk + n % chunk && 0 <= n % chunk < chunk
  {
  }

  lemma ProductGrows(a: nat, b: nat, c: nat)
    requires a <= b
    ensures a * c <= b * c
  {
  }

  /** How much of the value the pages in front of a page hold. */
  lemma PageBounds(n: nat, chunk: nat, page: nat)
    requires chunk > 0 && page < Pages(n, chunk)
    ensures page * chunk < n
    ensures (page + 1) * chunk <= n || (page == Pages(n, chunk) - 1 && n % chunk > 0 && n - page * chunk == n % chunk)
  {
    Division(n, chunk);
    var q := n / chunk;
    if page < q {
      ProductGrows(page + 1, q, chunk);
      assert page * chunk + chunk == (page + 1) * chunk;
    }
  }

  /** The values of all parts up to a page, one behind the other. */
  function Joined(value: bytes, chunk: nat, pages: nat): bytes
    requires chunk > 0
  {
    if pages == 0 then [] else Joined(value, chunk, pages - 1) + Part(value, chunk, pages - 1)
  }

  lemma {:induction false} JoinedIs(value: bytes, chunk: nat, pages: nat)
    requires chunk > 0 && pages <= Pages(|value|, chunk)
    ensures if pages == Pages(|value|, chunk) then Joined(value, chunk, pages) == value
            else pages * chunk <= |value| && Joined(value, chunk, pages) == value[..pages * chunk]
    decreases pages
  {
    hide Pages, Part;
    if pages > 0 {
      JoinedIs(value, chunk, pages - 1);
      PartIs(value, chunk, pages - 1);
      assert value[..(pages - 1) * chunk] + value[(pages - 1) * chunk..] == value;
    } else if Pages(|value|, chunk) == 0 {
      NoPages(|value|, chunk);
    }
  }

  lemma NoPages(n: nat, chunk: nat)
    requires chunk > 0 && Pages(n, chunk) == 0
    ensures n == 0
  {
    Division(n, chunk);
  }

  lemma PartIs(value: bytes, chunk: nat, page: nat)
    requires chunk > 0 && page < Pages(|value|, chunk)
    ensures page * chunk < |value|
    ensures if page + 1 == Pages(|value|, chunk) then Part(value, chunk, page) == value[page * chunk..]
            else (page + 1) * chunk <= |value| && Part(value, chunk, page) == value[page * chunk..(page + 1) * chunk]
    ensures page * chunk <= (page + 1) * chunk
  {
    PageBounds(|value|, chunk, page);
    Division(|value|, chunk);
    assert (page + 1) * chunk == page * chunk + chunk;
    if page + 1 < Pages(|value|, chunk) { PageBounds(|value|, chunk, page + 1); }
  }

  /** When the count fits its byte, the program counts all pages and shows each part whole. */
  lemma ShownIsPart(value: bytes, chunk: nat, page: byte)
    requires chunk > 0 && Pages(|value|, chunk) <= 255
    ensures PageCount(|value|, chunk) == Pages(|value|, chunk)
    ensures page < Pages(|value|, chunk) ==> Shown(value, chunk, page) == Part(value, chunk, page) != []
  {
    CountAtMost(|value|, chunk);
    hide PageCount, Pages;
    if page < Pages(|value|, chunk) { PageBounds(|value|, chunk, page); }
  }

  /** The 8-bit count is at most the number of pages, and is it when that fits. */
  lemma CountAtMost(n: nat, chunk: nat)
    requires chunk > 0
    ensures PageCount(n, chunk) <= Pages(n, chunk)
    ensures Pages(n, chunk) <= 255 ==> PageCount(n, chunk) == Pages(n, chunk)
  {
    CutAtMost(n / chunk, if n % chunk > 0 then 1 else 0);
  }

  lemma CutAtMost(q: nat, more: nat)
    requires more <= 1
    ensures (q % 256 + more) % 256 <= q + more && (q + more <= 255 ==> (q % 256 + more) % 256 == q + more)
  {
  }

  /** The count is the number of pages with all but 8 bits lost. */
  lemma CountIsCut(n: nat, chunk: nat)
    requires chunk > 0
    ensures PageCount(n, chunk) == Pages(n, chunk) % 0x100
  {
    CutSum(n / chunk, if n % chunk > 0 then 1 else 0);
  }

  lemma CutSum(q: nat, more: nat)
    requires more <= 1
    ensures (q % 256 + more) % 256 == (q + more) % 0x100
  {
  }

  /** All that the program shows, page after page. */
  function AllShown(value: bytes, chunk: nat, pages: nat): bytes
    requires chunk > 0 && pages <= 256
  {
    if pages == 0 then [] else AllShown(value, chunk, pages - 1) + Shown(value, chunk, pages - 1)
  }

  lemma {:induction false} AllShownIsJoined(value: bytes, chunk: nat, pages: nat)
    requires chunk > 0 && Pages(|value|, chunk) <= 255 && pages <= Pages(|value|, chunk)
    ensures AllShown(value, chunk, pages) == Joined(value, chunk, pages)
    decreases pages
  {
    if pages > 0 {
      AllShownIsJoined(value, chunk, pages - 1);
      ShownIsPart(value, chunk, pages - 1);
    }
  }

  lemma {:induction false} AllShownBound(value: bytes, chunk: nat, pages: nat)
    requires chunk > 0 && pages <= 256
    ensures |AllShown(value, chunk, pages)| <= pages * chunk
    decreases pages
  {
    hide Shown, Part;
    if pages > 0 {
      AllShownBound(value, chunk, pages - 1);
      assert (pages - 1) * chunk + chunk == pages * chunk;
      ShownBound(value, chunk, pages - 1);
    }
  }

  lemma ShownBound(value: bytes, chunk: nat, page: byte)
    requires chunk > 0
    ensures |Shown(value, chunk, page)| <= chunk
  {
    hide PageCount;
    PartBound(value, chunk, page);
  }

  lemma PartBound(value: bytes, chunk: nat, page: nat)
    requires chunk > 0
    ensures |Part(value, chunk, page)| <= chunk
  {
    assert (page + 1) * chunk == page * chunk + chunk;
  }

  /** With more pages than the 8-bit count tells, something is missing. */
  lemma TooManyPages(value: bytes, chunk: nat)
    requires chunk > 0 && Pages(|value|, chunk) > 255
    ensures |AllShown(value, chunk, PageCount(|value|, chunk))| < |value|
  {
    hide AllShown, PageCount;
    var count, n := PageCount(|value|, chunk), Pages(|value|, chunk);
    AllShownBound(value, chunk, count);
    PageBounds(|value|, chunk, n - 1);
    ProductGrows(count, n - 1, chunk);
  }

  /** The pages of a value together are the value, exactly when their number fits in 8 bits. */
  lemma PagesCoverIff(value: bytes, chunk: nat)
    requires chunk > 0
    ensures AllShown(value, chunk, PageCount(|value|, chunk)) == value <==> Pages(|value|, chunk) <= 255
  {
    hide AllShown, PageCount, Pages;
    if Pages(|value|, chunk) <= 255 {
      CountAtMost(|value|, chunk);
      AllShownIsJoined(value, chunk, PageCount(|value|, chunk));
      JoinedIs(value, chunk, PageCount(|value|, chunk));
    } else {
      TooManyPages(value, chunk);
    }
  }

  // ---------------------------------------------------------------- hexadecimal

  function HexDigit(d: nat): byte
    requires d < 16
  {
    if d < 10 then 48 + d else 87 + d
  }

  function HexByte(b: byte): (r: bytes)
    ensures |r| == 2
  {
    [HexDigit(b / 16), HexDigit(b % 16)]
  }

  function Hex(s: bytes): (r: bytes)
    ensures |r| == 2 * |s|
    decreases |s|
  {
    if s == [] then [] else Hex(s[..|s| - 1]) + HexByte(s[|s| - 1])
  }

  lemma {:induction false} HexConcat(a: bytes, b: bytes)
    ensures Hex(a + b) == Hex(a) + Hex(b)
    decreases |b|
  {
    if b == [] {
      assert a + b == a;
    } else {
      assert (a + b)[..|a + b| - 1] == a + b[..|b| - 1];
      HexConcat(a, b[..|b| - 1]);
    }
  }

  /** The digits are lower-case. */
  lemma HexDigits()
    ensures forall d: nat :: d < 16 ==> HexDigit(d) == Ascii("0123456789abcdef")[d]
  {
  }

  /** The value of a hexadecimal digit. */
  function DigitValue(c: byte): nat { if 48 <= c <= 57 then c - 48 else if 97 <= c <= 102 then c - 97 + 10 else 0 }

  /** Reads two digits as a byte, and all digits so. */
  function Unhex(s: bytes): bytes {
    if |s| < 2 then [] else Unhex(s[..|s| - 2]) + [TwoDigits(s[|s| - 2], s[|s| - 1])]
  }

  function TwoDigits(high: byte, low: byte): byte { (16 * DigitValue(high) + DigitValue(low)) % 256 }

  /** Hexadecimal text reads back as the bytes. */
  lemma {:induction false} UnhexHex(s: bytes)
    ensures Unhex(Hex(s)) == s
    decreases |s|
  {
    hide Hex, Unhex;
    if s != [] {
      UnhexHex(s[..|s| - 1]);
      HexLast(s);
      UnhexByte(Hex(s[..|s| - 1]), s[|s| - 1]);
      assert s[..|s| - 1] + [s[|s| - 1]] == s;
    } else {
      NothingRead();
    }
  }

  lemma UnhexByte(s: bytes, b: byte)
    ensures Unhex(s + HexByte(b)) == Unhex(s) + [b]
  {
    hide Unhex, HexByte, TwoDigits;
    UnhexLast(s, HexByte(b));
    DigitsOfByte(b);
  }

  lemma HexLast(s: bytes)
    requires s != []
    ensures Hex(s) == Hex(s[..|s| - 1]) + HexByte(s[|s| - 1])
  {
  }

  lemma NothingRead()
    ensures Unhex(Hex([])) == []
  {
  }

  lemma UnhexLast(s: bytes, two: bytes)
    requires |two| == 2
    ensures Unhex(s + two) == Unhex(s) + [TwoDigits(two[0], two[1])]
  {
    assert (s + two)[..|s + two| - 2] == s;
  }

  lemma DigitsOfByte(b: byte)
    ensures TwoDigits(HexByte(b)[0], HexByte(b)[1]) == b
  {
    hide HexDigit, DigitValue;
    DigitReads(b / 16);
    DigitReads(b % 16);
  }

  lemma DigitReads(d: nat)
    requires d < 16
    ensures DigitValue(HexDigit(d)) == d
  {
  }

  function AllHex(value: bytes, chunk: nat, pages: nat): bytes
    requires chunk > 0 && pages <= 256
  {
    if pages == 0 then [] else AllHex(value, chunk, pages - 1) + Hex(Shown(value, chunk, pages - 1))
  }

  lemma {:induction false} AllHexIsHex(value: bytes, chunk: nat, pages: nat)
    requires chunk > 0 && pages <= 256
    ensures AllHex(value, chunk, pages) == Hex(AllShown(value, chunk, pages))
    decreases pages
  {
    if pages > 0 {
      AllHexIsHex(value, chunk, pages - 1);
      HexConcat(AllShown(value, chunk, pages - 1), Shown(value, chunk, pages - 1));
    }
  }

  /** The hexadecimal pages together are the value in hexadecimal, exactly when their number fits in 8 bits. */
  lemma HexPagesCoverIff(value: bytes, chunk: nat)
    requires chunk > 0
    ensures AllHex(value, chunk, PageCount(|value|, chunk)) == Hex(value) <==> Pages(|value|, chunk) <= 255
  {
    hide Hex, AllHex, AllShown, PageCount, Pages;
    AllHexIsHex(value, chunk, PageCount(|value|, chunk));
    PagesCoverIff(value, chunk);
    if Pages(|value|, chunk) > 255 { TooManyPages(value, chunk); }
  }

  // ---------------------------------------------------------------- the program

  predicate Holds(out: array<byte>, text: bytes)
    reads out
  {
    |text| <= out.Length && out[..] == text + seq(out.Length - |text|, _ => 0)
  }

  lemma HoldsIs(out: array<byte>, text: bytes)
    ensures Holds(out, text)
       <==> |text| <= out.Length && out[..|text|] == text && forall k :: |text| <= k < out.Length ==> out[k] == 0
  {
    if Holds(out, text) {
      forall k | |text| <= k < out.Length ensures out[k] == 0 { assert out[..][k] == out[k]; }
      assert out[..|text|] == out[..][..|text|] == text;
    }
  }

  method Zero(out: array<byte>)
    modifies out
    ensures Holds(out, [])
  {
    forall i | 0 <= i < out.Length { out[i] := 0; }
  }

  /** Copies bytes to the front of a zeroed buffer. */
  method Copy(out: array<byte>, value: bytes, from: nat, n: nat)
    requires from + n <= |value| && n <= out.Length && Holds(out, [])
    modifies out
    ensures Holds(out, value[from..from + n])
  {
    assert forall k :: 0 <= k < out.Length ==> out[k] == 0;
    for i := 0 to n
      invariant forall k :: 0 <= k < i ==> out[k] == value[from + k]
      invariant forall k :: i <= k < out.Length ==> out[k] == 0
    {
      out[i] := value[from + i];
    }
  }

  /** The count in 8 bits, and the size of the last page if it is not full. */
  method CountPages(n: nat, chunk: nat) returns (pageCount: byte, last: nat)
    requires chunk > 0
    ensures pageCount == PageCount(n, chunk) && last == n % chunk
  {
    pageCount := n / chunk % 256;
    last := n % chunk;
    if last > 0 { pageCount := (pageCount as int + 1) % 256; }
  }

  method PageStringExt(out: array<byte>, value: bytes, pageIdx: byte) returns (pageCount: byte)
    requires out.Length > 0
    modifies out
    ensures if out.Length == 1 || value == [] then pageCount == 0 && Holds(out, [])
            else pageCount == PageCount(|value|, out.Length - 1) && Holds(out, Shown(value, out.Length - 1, pageIdx))
  {
    hide Shown, Holds, Taken, PageCount;
    Zero(out);
    var chunk := out.Length - 1;
    if chunk == 0 { return 0; }
    if |value| == 0 { return 0; }
    NothingShown(value, chunk, pageIdx);
    TakenIs(|value|, chunk, pageIdx);
    var last;
    pageCount, last := CountPages(|value|, chunk);
    if pageIdx < pageCount {
      ShownIs(value, chunk, pageIdx);
      if last > 0 && pageIdx == pageCount - 1 {
        Copy(out, value, pageIdx * chunk, last);
      } else {
        Copy(out, value, pageIdx * chunk, chunk);
      }
    }
  }

  /** How many bytes the program takes for a page. */
  function Taken(n: nat, chunk: nat, page: byte): nat
    requires chunk > 0
  {
    if n % chunk > 0 && page == PageCount(n, chunk) - 1 then n % chunk else chunk
  }

  lemma TakenIs(n: nat, chunk: nat, page: byte)
    requires chunk > 0
    ensures Taken(n, chunk, page) == if n % chunk > 0 && page == PageCount(n, chunk) - 1 then n % chunk else chunk
  {
  }

  /** A page below the 8-bit count lies in the value, whole unless it is the last. */
  lemma ShownIs(value: bytes, chunk: nat, page: byte)
    requires chunk > 0 && page < PageCount(|value|, chunk)
    ensures var from, n := page * chunk, Taken(|value|, chunk, page);
      from + n <= |value| && n <= chunk && Shown(value, chunk, page) == value[from..from + n]
  {
    CountAtMost(|value|, chunk);
    hide PageCount, Pages;
    PageBounds(|value|, chunk, page);
    assert (page + 1) * chunk == page * chunk + chunk;
  }

  lemma HexStep(value: bytes, from: nat, i: nat)
    requires from + i < |value|
    ensures Hex(value[from..from + i + 1]) == Hex(value[from..from + i]) + HexByte(value[from + i])
  {
    assert value[from..from + i + 1][..i] == value[from..from + i];
  }

  lemma NoHex()
    ensures Hex([]) == []
  {
  }

  method ArrayToHexstr(out: array<byte>, value: bytes, from: nat, n: nat) returns (len: nat)
    requires from + n <= |value|
    modifies out
    ensures if out.Length < 2 * n + 1 then len == 0 && Holds(out, [])
            else len == 2 * n && Holds(out, Hex(value[from..from + n]))
  {
    hide Hex, HexByte, Holds;
    Zero(out);
    if out.Length < 2 * n + 1 { return 0; }
    NoHex();
    var at := 0;
    for i := 0 to n
      invariant at == 2 * i && Holds(out, Hex(value[from..from + i]))
    {
      HexStep(value, from, i);
      PutHex(out, at, value[from + i], Hex(value[from..from + i]));
      at := at + 2;
    }
    return 2 * n;
  }

  /** The two characters of a byte behind a text in a zeroed buffer. */
  method PutHex(out: array<byte>, at: nat, b: byte, ghost text: bytes)
    requires Holds(out, text) && at == |text| && at + 2 <= out.Length
    modifies out
    ensures Holds(out, text + HexByte(b))
  {
    HoldsIs(out, text);
    out[at] := HexDigit(b / 16);
    out[at + 1] := HexDigit(b % 16);
    HoldsIs(out, text + HexByte(b));
  }

  lemma NothingShown(value: bytes, chunk: nat, page: byte)
    ensures chunk > 0 && page >= PageCount(|value|, chunk) ==> Shown(value, chunk, page) == []
  {
  }

  /** A buffer of two bytes would have no room for a page, and the program divides by its size. */
  method PageStringHex(out: array<byte>, value: bytes, pageIdx: byte) returns (pageCount: byte)
    requires out.Length != 2
    modifies out
    ensures if out.Length < 2 || value == [] then pageCount == 0 && Holds(out, [])
            else pageCount == PageCount(|value|, (out.Length - 1) / 2)
                 && Holds(out, Hex(Shown(value, (out.Length - 1) / 2, pageIdx)))
  {
    hide Shown, Hex, Holds, Taken, PageCount;
    NoHex();
    Zero(out);
    if out.Length < 2 { return 0; }
    if |value| == 0 { return 0; }
    var chunk := (out.Length - 1) / 2;
    NothingShown(value, chunk, pageIdx);
    TakenIs(|value|, chunk, pageIdx);
    var last;
    pageCount, last := CountPages(|value|, chunk);
    if pageIdx < pageCount {
      ShownIs(value, chunk, pageIdx);
      if last > 0 && pageIdx == pageCount - 1 {
        var n := ArrayToHexstr(out, value, pageIdx * chunk, last);
      } else {
        var n := ArrayToHexstr(out, value, pageIdx * chunk, chunk);
      }
    }
  }
}
