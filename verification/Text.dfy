// Small string and window functions several components use. A char is a code point.
module Text {

  /** White space as Go's unicode.IsSpace has it. */
  predicate IsSpace(c: char) {
    '\t' <= c <= '\r' || c == ' ' || c == '\U{85}' || c == '\U{A0}' || c == '\U{1680}'
    || '\U{2000}' <= c <= '\U{200A}' || c == '\U{2028}' || c == '\U{2029}' || c == '\U{202F}'
    || c == '\U{205F}' || c == '\U{3000}'
  }

  function Trim(s: string): string
    decreases |s|
  {
    if s != "" && IsSpace(s[0]) then Trim(s[1..])
    else if s != "" && IsSpace(s[|s| - 1]) then Trim(s[..|s| - 1])
    else s
  }

  predicate Blank(s: string) {
    Trim(s) == ""
  }

  /** Only white space trims to nothing. */
  lemma {:induction false} BlankIff(s: string)
    ensures Blank(s) <==> forall c :: c in s ==> IsSpace(c)
    decreases |s|
  {
    if s != "" && IsSpace(s[0]) {
      BlankIff(s[1..]);
      assert s == [s[0]] + s[1..];
    } else if s != "" && IsSpace(s[|s| - 1]) {
      BlankIff(s[..|s| - 1]);
      assert s == s[..|s| - 1] + [s[|s| - 1]];
    } else if s != "" {
      assert s[0] in s;
    }
  }

  /** White space at both ends. */
  predicate Padded(s: string, i: nat, j: nat) {
    && i <= j <= |s|
    && (forall k :: 0 <= k < i ==> IsSpace(s[k])) && (forall k :: j <= k < |s| ==> IsSpace(s[k]))
  }

  /** Trimming takes all the white space off both ends and nothing else. */
  lemma {:induction false} TrimSplits(s: string) returns (i: nat, j: nat)
    ensures Padded(s, i, j) && Trim(s) == s[i..j]
    ensures i < j ==> !IsSpace(s[i]) && !IsSpace(s[j - 1])
    decreases |s|
  {
    if s != "" && IsSpace(s[0]) {
      i, j := TrimSplits(s[1..]);
      assert s[1..][i..j] == s[i + 1..j + 1];
      i, j := i + 1, j + 1;
    } else if s != "" && IsSpace(s[|s| - 1]) {
      i, j := TrimSplits(s[..|s| - 1]);
      assert s[..|s| - 1][i..j] == s[i..j];
    } else {
      i, j := 0, |s|;
    }
  }

  /** What is between the white space, when it begins and ends with something else. */
  lemma TrimIs(s: string, i: nat, j: nat)
    requires Padded(s, i, j) && i < j && !IsSpace(s[i]) && !IsSpace(s[j - 1])
    ensures Trim(s) == s[i..j]
  {
    var a, b := TrimSplits(s);
    assert a <= i < b && j <= b;
  }

  /** The last `cap` elements, or all of them. */
  function Last<T>(s: seq<T>, cap: nat): seq<T> {
    if |s| > cap then s[|s| - cap..] else s
  }

  /** Capping before appending changes nothing. */
  lemma LastConcat<T>(a: seq<T>, b: seq<T>, cap: nat)
    ensures Last(Last(a, cap) + b, cap) == Last(a + b, cap)
  {
  }
}
