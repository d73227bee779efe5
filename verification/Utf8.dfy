// Truncation of error texts on a character boundary, against the UTF-8 syntax of
// section 4 of RFC 3629. Go strings are byte strings: a string in this module, and an
// error text in WorkerRun, has one char per byte. Text, and the uv output in DepsInstall,
// take a char to be a code point; Encode goes from the second reading to the first.
module Utf8 {
  import opened Options

  predicate In(c: char, lo: int, hi: int) {
    lo <= c as int <= hi
  }

  /** A continuation byte. */
  predicate Tail(c: char) {
    In(c, 0x80, 0xBF)
  }

  predicate RuneStart(c: char) {
    !Tail(c)
  }

  /** The length of the well-formed character at the front of s, 0 if there is none. */
  function CharLen(s: string): (n: nat)
    ensures n <= |s| && n <= 4
  {
    if |s| >= 1 && In(s[0], 0, 0x7F) then 1
    else if |s| >= 2 && In(s[0], 0xC2, 0xDF) && Tail(s[1]) then 2
    else if |s| >= 3 && Tail(s[1]) && Tail(s[2])
            && ((s[0] as int == 0xE0 && In(s[1], 0xA0, 0xBF)) || In(s[0], 0xE1, 0xEC)
                || (s[0] as int == 0xED && In(s[1], 0x80, 0x9F)) || In(s[0], 0xEE, 0xEF)) then 3
    else if |s| >= 4 && Tail(s[1]) && Tail(s[2]) && Tail(s[3])
            && ((s[0] as int == 0xF0 && In(s[1], 0x90, 0xBF)) || In(s[0], 0xF1, 0xF3)
                || (s[0] as int == 0xF4 && In(s[1], 0x80, 0x8F))) then 4
    else 0
  }

  predicate ValidUtf8(s: string)
    decreases |s|
  {
    s == "" || (CharLen(s) > 0 && ValidUtf8(s[CharLen(s)..]))
  }

  const ELLIPSIS: string := [0xE2 as char, 0x80 as char, 0xA6 as char]

  /** Where backing up from n stops; byte 0 is the floor. */
  function CutAt(s: string, n: nat): (k: nat)
    requires n < |s|
    ensures k <= n
  {
    if n == 0 || RuneStart(s[n]) then n else CutAt(s, n - 1)
  }

  function Truncated(s: string, n: nat): string {
    if |s| <= n then s else s[..CutAt(s, n)] + ELLIPSIS
  }

  /** None is the index panic of a text whose first n+1 bytes are all continuations. */
  method TruncateErr(s: string, n: nat) returns (r: Option<string>)
    ensures r.None? <==> |s| > n && forall i :: 0 <= i <= n ==> !RuneStart(s[i])
    ensures r.Some? ==> r.value == Truncated(s, n)
    ensures |s| <= n ==> r == Some(s)
    ensures |s| > n && r.Some? ==>
              exists k :: 0 <= k <= n && RuneStart(s[k]) && (forall i :: k < i <= n ==> !RuneStart(s[i]))
                          && r.value == s[..k] + [0xE2 as char, 0x80 as char, 0xA6 as char]
  {
    if |s| <= n {
      return Some(s);
    }
    var cut := n as int;
    while cut >= 0 && !RuneStart(s[cut])
      invariant -1 <= cut <= n
      invariant forall i :: cut < i <= n ==> !RuneStart(s[i])
      invariant cut >= 0 ==> CutAt(s, n) == CutAt(s, cut)
    {
      cut := cut - 1;
    }
    if cut < 0 {
      return None;
    }
    return Some(s[..cut] + ELLIPSIS);
  }

  // ---- from code points to bytes ------------------------------------------------------

  /** The bytes of one code point, section 3 of RFC 3629. */
  function EncodeChar(c: char): string {
    var x := c as int;
    if x < 0x80 then [c]
    else if x < 0x800 then [(0xC0 + x / 0x40) as char, Low(x)]
    else if x < 0x1_0000 then [(0xE0 + x / 0x1000) as char, Low(x / 0x40), Low(x)]
    else [(0xF0 + x / 0x4_0000) as char, Low(x / 0x1000), Low(x / 0x40), Low(x)]
  }

  /** The continuation byte of the last six bits. */
  function Low(x: nat): char {
    (0x80 + x % 0x40) as char
  }

  function Encode(s: string): string {
    if s == "" then "" else EncodeChar(s[0]) + Encode(s[1..])
  }

  lemma Parts3(x: nat)
    requires 0x800 <= x < 0x1_0000
    ensures var a, b := x / 0x1000, x / 0x40 % 0x40;
            a < 0x10 && (a == 0 ==> b >= 0x20) && (a == 0xD && x < 0xD800 ==> b < 0x20)
  {
  }

  lemma Parts4(x: nat)
    requires 0x1_0000 <= x < 0x11_0000
    ensures var a, b := x / 0x4_0000, x / 0x1000 % 0x40;
            a <= 4 && (a == 0 ==> b >= 0x10) && (a == 4 ==> b < 0x10)
  {
  }

  lemma TailOfLow(x: nat)
    ensures Tail(Low(x)) && Low(x) as int == 0x80 + x % 0x40
  {
  }

  lemma EncodedChar(c: char)
    ensures CharLen(EncodeChar(c)) == |EncodeChar(c)| > 0
    ensures ValidUtf8(EncodeChar(c))
  {
    var e, x := EncodeChar(c), c as int;
    assert e[|e|..] == "";
    TailOfLow(x);
    TailOfLow(x / 0x40);
    TailOfLow(x / 0x1000);
    if 0x800 <= x < 0x1_0000 {
      Parts3(x);
    } else if x >= 0x1_0000 {
      Parts4(x);
    }
    hide Low;
  }

  /** Code points encode to valid text, one to four bytes each. */
  lemma {:induction false} EncodeIsValid(s: string)
    ensures ValidUtf8(Encode(s)) && |s| <= |Encode(s)| <= 4 * |s|
  {
    if s != "" {
      EncodedChar(s[0]);
      EncodeIsValid(s[1..]);
      ConcatValid(EncodeChar(s[0]), Encode(s[1..]));
    }
  }

  lemma SixBits(high: nat, low: nat)
    requires low < 0x40
    ensures (high * 0x40 + low) / 0x40 == high && (high * 0x40 + low) % 0x40 == low
  {
  }

  lemma SixBitsTwice(x: nat)
    ensures x / 0x1000 == x / 0x40 / 0x40 && x / 0x4_0000 == x / 0x40 / 0x40 / 0x40
  {
  }

  /** The code point of a well-formed sequence of bytes. */
  lemma Decoded2(a: char, b: char) returns (c: char)
    requires In(a, 0xC2, 0xDF) && Tail(b)
    ensures EncodeChar(c) == [a, b]
  {
    c := ((a as int - 0xC0) * 0x40 + (b as int - 0x80)) as char;
  }

  lemma Decoded3(a: nat, b: nat, c: nat) returns (x: nat)
    requires a < 0x10 && b < 0x40 && c < 0x40
    ensures x == a * 0x1000 + b * 0x40 + c
    ensures x / 0x1000 == a && x / 0x40 % 0x40 == b && x % 0x40 == c
  {
    x := (a * 0x40 + b) * 0x40 + c;
    SixBits(a, b);
    SixBits(a * 0x40 + b, c);
    SixBitsTwice(x);
  }

  lemma Decoded4(a: nat, b: nat, c: nat, d: nat) returns (x: nat)
    requires a < 8 && b < 0x40 && c < 0x40 && d < 0x40
    ensures x == a * 0x4_0000 + b * 0x1000 + c * 0x40 + d
    ensures x / 0x4_0000 == a && x / 0x1000 % 0x40 == b && x / 0x40 % 0x40 == c && x % 0x40 == d
  {
    x := ((a * 0x40 + b) * 0x40 + c) * 0x40 + d;
    SixBits(a, b);
    SixBits(a * 0x40 + b, c);
    SixBits((a * 0x40 + b) * 0x40 + c, d);
    SixBitsTwice(x);
  }

  lemma DecodedLong(s: string) returns (c: char)
    requires CharLen(s) >= 3
    ensures EncodeChar(c) == s[..CharLen(s)]
  {
    if CharLen(s) == 3 {
      var x := Decoded3(s[0] as int - 0xE0, s[1] as int - 0x80, s[2] as int - 0x80);
      c := x as char;
    } else {
      var x := Decoded4(s[0] as int - 0xF0, s[1] as int - 0x80, s[2] as int - 0x80, s[3] as int - 0x80);
      c := x as char;
    }
  }

  lemma DecodedChar(s: string) returns (c: char)
    requires CharLen(s) > 0
    ensures EncodeChar(c) == s[..CharLen(s)]
  {
    var n := CharLen(s);
    if n == 1 {
      c := s[0];
    } else if n == 2 {
      c := Decoded2(s[0], s[1]);
    } else {
      c := DecodedLong(s);
    }
  }

  lemma EncodeFirst(c: char, t: string)
    ensures Encode([c] + t) == EncodeChar(c) + Encode(t)
  {
    assert ([c] + t)[1..] == t;
  }

  lemma ValidRest(s: string)
    requires ValidUtf8(s) && s != ""
    ensures CharLen(s) > 0 && ValidUtf8(s[CharLen(s)..])
  {
  }

  lemma {:induction false} ValidIsEncoded(s: string) returns (t: string)
    requires ValidUtf8(s)
    ensures Encode(t) == s
    decreases |s|
  {
    hide *;
    if s == "" {
      EncodeNone();
      t := "";
    } else {
      ValidRest(s);
      var n := CharLen(s);
      var rest := ValidIsEncoded(s[n..]);
      var c := DecodedChar(s);
      EncodeFirst(c, rest);
      t := [c] + rest;
      assert s[..n] + s[n..] == s;
    }
  }

  lemma EncodeNone()
    ensures Encode("") == ""
  {
  }

  /** Valid text is exactly the encoding of some code points. */
  lemma ValidIff(s: string)
    ensures ValidUtf8(s) <==> exists t :: Encode(t) == s
  {
    hide *;
    if ValidUtf8(s) {
      var t := ValidIsEncoded(s);
    }
    forall t | Encode(t) == s
      ensures ValidUtf8(s)
    {
      EncodeIsValid(t);
    }
  }

  // ---- character boundaries ---------------------------------------------------------

  lemma CharLenPrefix(s: string, i: nat)
    requires i <= |s| && CharLen(s) > 0
    ensures i >= CharLen(s) ==> CharLen(s[..i]) == CharLen(s)
    ensures 0 < i < CharLen(s) ==> CharLen(s[..i]) == 0 && !RuneStart(s[i])
    ensures RuneStart(s[0])
  {
  }

  /** In valid text a cut leaves valid text exactly on a character boundary. */
  lemma {:induction false} BoundaryIff(s: string, i: nat)
    requires ValidUtf8(s) && i < |s|
    ensures ValidUtf8(s[..i]) <==> RuneStart(s[i])
    decreases |s|
  {
    CharLenPrefix(s, i);
    var n := CharLen(s);
    if i >= n {
      assert s[..i][n..] == s[n..][..i - n];
      BoundaryIff(s[n..], i - n);
    }
  }

  lemma CharLenConcat(a: string, b: string)
    requires CharLen(a) > 0
    ensures CharLen(a + b) == CharLen(a)
  {
    assert forall i :: 0 <= i < |a| ==> (a + b)[i] == a[i];
  }

  lemma {:induction false} ConcatValid(a: string, b: string)
    requires ValidUtf8(a) && ValidUtf8(b)
    ensures ValidUtf8(a + b)
    decreases |a|
  {
    if a == "" {
      assert a + b == b;
    } else {
      var n := CharLen(a);
      CharLenConcat(a, b);
      hide CharLen;
      assert (a + b)[n..] == a[n..] + b;
      ConcatValid(a[n..], b);
    }
  }

  /** Four bytes in a row of valid text hold the start of a character. */
  lemma {:induction false} StartWithinFour(s: string, n: nat)
    requires ValidUtf8(s) && n < |s|
    ensures exists k :: 0 <= k <= n && n - 3 <= k && RuneStart(s[k])
    decreases |s|
  {
    CharLenPrefix(s, 0);
    var m := CharLen(s);
    if n >= m {
      StartWithinFour(s[m..], n - m);
      var k :| 0 <= k <= n - m && n - m - 3 <= k && RuneStart(s[m..][k]);
      assert RuneStart(s[k + m]);
    } else {
      assert RuneStart(s[0]);
    }
  }

  lemma {:induction false} CutIsLastStart(s: string, n: nat, k: nat)
    requires k <= n < |s| && RuneStart(s[k])
    ensures k <= CutAt(s, n) <= n && RuneStart(s[CutAt(s, n)])
    ensures forall i :: CutAt(s, n) < i <= n ==> !RuneStart(s[i])
  {
    if !RuneStart(s[n]) {
      CutIsLastStart(s, n - 1, k);
    }
  }

  /** Truncating valid text backs up at most three bytes, keeps the longest valid
      prefix of at most n bytes, and gives valid text of at most n + 3 bytes. */
  lemma TruncationIsSafe(s: string, n: nat)
    requires ValidUtf8(s) && |s| > n
    ensures n - 3 <= CutAt(s, n) <= n
    ensures ValidUtf8(s[..CutAt(s, n)])
    ensures forall j :: CutAt(s, n) < j <= n ==> !ValidUtf8(s[..j])
    ensures ValidUtf8(Truncated(s, n)) && |Truncated(s, n)| <= n + 3
    ensures exists i :: 0 <= i <= n && RuneStart(s[i])
  {
    StartWithinFour(s, n);
    var k :| 0 <= k <= n && n - 3 <= k && RuneStart(s[k]);
    CutIsLastStart(s, n, k);
    BoundaryIff(s, CutAt(s, n));
    forall j | CutAt(s, n) < j <= n
      ensures !ValidUtf8(s[..j])
    {
      BoundaryIff(s, j);
    }
    EllipsisIsValid();
    ConcatValid(s[..CutAt(s, n)], ELLIPSIS);
  }

  lemma EllipsisIsValid()
    ensures ValidUtf8(ELLIPSIS)
  {
    assert CharLen(ELLIPSIS) == 3 && ELLIPSIS[3..] == "";
  }

  /** The plain cut of install errors, by contrast, is valid only by luck. */
  lemma PlainCutIff(s: string, n: nat)
    requires ValidUtf8(s)
    ensures ValidUtf8(if |s| > n then s[..n] else s) <==> |s| <= n || RuneStart(s[n])
  {
    if |s| > n {
      BoundaryIff(s, n);
    }
  }

  lemma {:induction false} AsciiIsValid(s: string)
    requires forall i :: 0 <= i < |s| ==> s[i] as int <= 0x7F
    ensures ValidUtf8(s)
    decreases |s|
  {
    if s != "" {
      AsciiIsValid(s[1..]);
    }
  }

  /** At every limit above zero some text is cut through a character: one byte short of the limit in
      ASCII, then a two-byte character. */
  lemma PlainCutSplits(n: nat) returns (s: string)
    requires n > 0
    ensures ValidUtf8(s) && |s| == n + 1 && !ValidUtf8(s[..n])
  {
    var front, last := seq(n - 1, i => 'a'), [0xC3 as char, 0xA9 as char];
    AsciiIsValid(front);
    assert CharLen(last) == 2 && last[2..] == "";
    ConcatValid(front, last);
    s := front + last;
    PlainCutIff(s, n);
  }
}
