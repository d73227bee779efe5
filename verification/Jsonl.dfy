// JSON-lines framing: the bytes AppendJSONL writes to an object, and the way
// the history endpoint and the browser take them apart again.
module Jsonl {

  type Byte = b: int | 0 <= b < 256
  type Bytes = seq<Byte>

  const NEWLINE: Byte := 10

  /** One encoded log line: a JSON object is never empty and holds no raw newline. */
  predicate IsLine(l: Bytes) {
    l != [] && NEWLINE !in l
  }

  predicate AreLines(ls: seq<Bytes>) {
    forall l :: l in ls ==> IsLine(l)
  }

  /** What the append loop adds to the buffer for `ls`. */
  function Encode(ls: seq<Bytes>): Bytes {
    if ls == [] then [] else ls[0] + [NEWLINE] + Encode(ls[1..])
  }

  /** The history endpoint cuts one trailing newline. */
  function TrimLastNewline(b: Bytes): Bytes {
    if b != [] && b[|b| - 1] == NEWLINE then b[..|b| - 1] else b
  }

  /** The position of the first newline, or the length when there is none. */
  function FirstNewline(b: Bytes): (i: nat)
    ensures i <= |b| && NEWLINE !in b[..i]
    ensures i < |b| ==> b[i] == NEWLINE
  {
    if b == [] || b[0] == NEWLINE then 0
    else
      assert forall j :: 0 < j <= |b| ==> b[..j] == [b[0]] + b[1..][..j - 1];
      1 + FirstNewline(b[1..])
  }

  /** The browser's split on newlines: one more part than there are newlines. */
  function Split(b: Bytes): seq<Bytes>
    decreases |b|
  {
    var i := FirstNewline(b);
    if i == |b| then [b] else [b[..i]] + Split(b[i + 1..])
  }

  function DropEmpty(parts: seq<Bytes>): seq<Bytes> {
    if parts == [] then []
    else (if parts[0] == [] then [] else [parts[0]]) + DropEmpty(parts[1..])
  }

  /** The lines of one text frame, as the browser sees them. */
  function FrameLines(frame: Bytes): seq<Bytes> {
    DropEmpty(Split(frame))
  }

  function Newlines(b: Bytes): nat {
    if b == [] then 0 else (if b[0] == NEWLINE then 1 else 0) + Newlines(b[1..])
  }

  // ---- appending in batches ----------------------------------------------

  lemma {:induction false} EncodeConcat(a: seq<Bytes>, b: seq<Bytes>)
    ensures Encode(a + b) == Encode(a) + Encode(b)
  {
    if a == [] {
      assert a + b == b;
    } else {
      EncodeConcat(a[1..], b);
      assert (a + b)[1..] == a[1..] + b;
    }
  }

  lemma {:induction false} NewlinesConcat(a: Bytes, b: Bytes)
    ensures Newlines(a + b) == Newlines(a) + Newlines(b)
  {
    if a == [] {
      assert a + b == b;
    } else {
      NewlinesConcat(a[1..], b);
      assert (a + b)[1..] == a[1..] + b;
    }
  }

  lemma {:induction false} NoNewlines(l: Bytes)
    requires NEWLINE !in l
    ensures Newlines(l) == 0
  {
    if l != [] {
      NoNewlines(l[1..]);
    }
  }

  /** The line count the index is given is the number of newlines written. */
  lemma {:induction false} EncodeNewlines(ls: seq<Bytes>)
    requires AreLines(ls)
    ensures Newlines(Encode(ls)) == |ls|
  {
    if ls != [] {
      EncodeNewlines(ls[1..]);
      assert IsLine(ls[0]);
      NoNewlines(ls[0]);
      NewlinesConcat(ls[0] + [NEWLINE], Encode(ls[1..]));
      NewlinesConcat(ls[0], [NEWLINE]);
    }
  }

  // ---- round trip ---------------------------------------------------------

  lemma DropEmptySingle(l: Bytes)
    requires l != []
    ensures DropEmpty([l]) == [l]
  {
    assert DropEmpty([l]) == [l] + DropEmpty([l][1..]);
  }

  lemma {:induction false} SplitLine(l: Bytes, rest: Bytes)
    requires NEWLINE !in l
    ensures Split(l + [NEWLINE] + rest) == [l] + Split(rest)
    ensures Split(l) == [l]
  {
    var b := l + [NEWLINE] + rest;
    var i := FirstNewline(b);
    assert b[|l|] == NEWLINE;
    assert i >= |l| by {
      assert forall k :: 0 <= k < |l| ==> b[k] == l[k];
    }
    assert i <= |l|;
    assert b[..i] == l && b[i + 1..] == rest;
    var j := FirstNewline(l);
    assert j == |l|;
  }

  /** A live frame carries one line and comes apart as that line. */
  lemma SingleLineFrame(l: Bytes)
    requires IsLine(l)
    ensures FrameLines(l) == [l]
  {
    SplitLine(l, []);
    DropEmptySingle(l);
  }

  lemma {:induction false} EncodeEnds(ls: seq<Bytes>)
    requires ls != []
    ensures Encode(ls) == TrimLastNewline(Encode(ls)) + [NEWLINE]
  {
    if |ls| == 1 {
      assert Encode(ls) == ls[0] + [NEWLINE];
    } else {
      EncodeEnds(ls[1..]);
    }
  }

  lemma TrimEncode(ls: seq<Bytes>)
    requires |ls| > 1
    ensures TrimLastNewline(Encode(ls)) == ls[0] + [NEWLINE] + TrimLastNewline(Encode(ls[1..]))
  {
    EncodeEnds(ls[1..]);
    var tail := TrimLastNewline(Encode(ls[1..]));
    assert Encode(ls) == (ls[0] + [NEWLINE] + tail) + [NEWLINE];
  }

  lemma TrimEncodeSingle(l: Bytes)
    ensures TrimLastNewline(Encode([l])) == l
  {
    assert Encode([l]) == l + [NEWLINE] + Encode([l][1..]) == l + [NEWLINE];
  }

  /** Decoding the bytes of an object whose lines were appended in any batching. */
  lemma {:induction false} DecodeEncode(ls: seq<Bytes>)
    requires AreLines(ls)
    ensures FrameLines(TrimLastNewline(Encode(ls))) == ls
  {
    if ls == [] {
      assert Split([]) == [[]];
    } else if |ls| == 1 {
      assert ls == [ls[0]];
      TrimEncodeSingle(ls[0]);
      SingleLineFrame(ls[0]);
    } else {
      DecodeEncode(ls[1..]);
      TrimEncode(ls);
      assert IsLine(ls[0]);
      var tail := Split(TrimLastNewline(Encode(ls[1..])));
      SplitLine(ls[0], TrimLastNewline(Encode(ls[1..])));
      assert ([ls[0]] + tail)[1..] == tail;
    }
  }

  lemma {:induction false} SplitPartsAreNewlineFree(b: Bytes)
    ensures forall p :: p in Split(b) ==> NEWLINE !in p
    decreases |b|
  {
    var i := FirstNewline(b);
    if i < |b| {
      SplitPartsAreNewlineFree(b[i + 1..]);
    } else {
      assert b[..i] == b;
    }
  }

  lemma {:induction false} DropEmptyMembers(parts: seq<Bytes>)
    ensures forall p :: p in DropEmpty(parts) <==> p in parts && p != []
  {
    if parts != [] {
      DropEmptyMembers(parts[1..]);
    }
  }

  /** The framing loses nothing exactly when every line is non-empty and newline-free. */
  lemma RoundTripIff(ls: seq<Bytes>)
    ensures FrameLines(TrimLastNewline(Encode(ls))) == ls <==> AreLines(ls)
  {
    if AreLines(ls) {
      DecodeEncode(ls);
    }
    var b := TrimLastNewline(Encode(ls));
    SplitPartsAreNewlineFree(b);
    DropEmptyMembers(Split(b));
  }
}
