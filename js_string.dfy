/** The handful of ECMAScript string operations the modelled sources rely on:
    `trim`, the regular-expression class `\s`, `endsWith`, `includes`, `indexOf`,
    `lastIndexOf` and `slice` with its clamping of out-of-range indices.
    Strings are sequences of characters; all tags the sources look for are ASCII. */
module JsString {

  datatype Option<+T> = None | Some(value: T)

  /** ECMAScript WhiteSpace and LineTerminator code points: exactly the characters
      `String.prototype.trim` strips and the regular-expression class `\s` matches. */
  predicate IsWhitespace(c: char) {
    || c == '\t' || c == '\n' || c == '\U{000B}' || c == '\U{000C}' || c == '\r' || c == ' '
    || c == '\U{00A0}' || c == '\U{1680}' || ('\U{2000}' <= c <= '\U{200A}')
    || c == '\U{2028}' || c == '\U{2029}' || c == '\U{202F}' || c == '\U{205F}'
    || c == '\U{3000}' || c == '\U{FEFF}'
  }

  predicate NoWhitespace(s: string) {
    forall k :: 0 <= k < |s| ==> !IsWhitespace(s[k])
  }

  /** Index of the first character that is not whitespace (|s| if there is none). */
  function TrimStartIndex(s: string): (i: nat)
    ensures i <= |s|
    ensures forall k :: 0 <= k < i ==> IsWhitespace(s[k])
    ensures i < |s| ==> !IsWhitespace(s[i])
  {
    if |s| == 0 || !IsWhitespace(s[0]) then 0 else 1 + TrimStartIndex(s[1..])
  }

  /** One past the last character at or after `from` that is not whitespace
      (`from` if there is none). */
  function TrimEndIndex(s: string, from: nat): (j: nat)
    requires from <= |s|
    ensures from <= j <= |s|
    ensures forall k :: j <= k < |s| ==> IsWhitespace(s[k])
    ensures from < j ==> !IsWhitespace(s[j - 1])
  {
    if |s| == from || !IsWhitespace(s[|s| - 1]) then |s| else TrimEndIndex(s[..|s| - 1], from)
  }

  /** `s.trim()`: the longest middle part of `s` that neither starts nor ends with whitespace. */
  function Trim(s: string): (r: string)
    ensures |r| <= |s|
    ensures |r| > 0 ==> !IsWhitespace(r[0]) && !IsWhitespace(r[|r| - 1])
    ensures r == [] <==> forall k :: 0 <= k < |s| ==> IsWhitespace(s[k])
    ensures NoWhitespace(s) ==> r == s
  {
    var i := TrimStartIndex(s);
    s[i..TrimEndIndex(s, i)]
  }

  /** Trimming a string that already neither starts nor ends with whitespace changes nothing. */
  lemma TrimOfTrimmed(s: string)
    requires |s| > 0 && !IsWhitespace(s[0]) && !IsWhitespace(s[|s| - 1])
    ensures Trim(s) == s
  {
    assert TrimStartIndex(s) == 0;
    assert s[0..] == s;
  }

  /** Every character of `s[lo..hi]` is whitespace. */
  predicate WhitespaceBetween(s: string, lo: nat, hi: nat)
    requires lo <= hi <= |s|
  {
    forall k :: lo <= k < hi ==> IsWhitespace(s[k])
  }

  /** `trim` removes whitespace only, and only at the ends: the result is a
      contiguous part of `s` with nothing but whitespace around it. */
  lemma TrimStripsOnlyWhitespace(s: string)
    ensures exists i: nat ::
              && i + |Trim(s)| <= |s| && Trim(s) == s[i..i + |Trim(s)|]
              && WhitespaceBetween(s, 0, i) && WhitespaceBetween(s, i + |Trim(s)|, |s|)
  {
    var i := TrimStartIndex(s);
    assert WhitespaceBetween(s, 0, i);
    assert WhitespaceBetween(s, TrimEndIndex(s, i), |s|);
  }

  /** `s.endsWith(suffix)`. */
  predicate EndsWith(s: string, suffix: string) {
    |suffix| <= |s| && s[|s| - |suffix|..] == suffix
  }

  /** A suffix fixes the characters at the end of `s`. */
  lemma EndsWithChar(s: string, suffix: string, i: int)
    ensures EndsWith(s, suffix) && 0 <= i < |suffix| ==> s[|s| - |suffix| + i] == suffix[i]
  {
    if EndsWith(s, suffix) && 0 <= i < |suffix| {
      assert s[|s| - |suffix|..][i] == s[|s| - |suffix| + i];
    }
  }

  /** `s.slice(start)` for a non-negative start: an index past the end gives "". */
  function Slice(s: string, start: nat): (r: string)
    ensures start <= |s| ==> s == s[..start] + r
    ensures start >= |s| ==> r == []
  {
    if start <= |s| then s[start..] else []
  }

  /** `s.slice(0, -n)` for n > 0: drops the last n characters, or everything if s is shorter. */
  function DropLast(s: string, n: nat): (r: string)
    requires n > 0
    ensures n <= |s| ==> |r| == |s| - n && s == r + s[|s| - n..]
    ensures n >= |s| ==> r == []
  {
    if n <= |s| then s[..|s| - n] else []
  }

  predicate OccursAt(s: string, pat: string, i: int) {
    0 <= i && i + |pat| <= |s| && s[i..i + |pat|] == pat
  }

  /** `s.includes(pat)`. */
  predicate Contains(s: string, pat: string) {
    exists i :: 0 <= i <= |s| && OccursAt(s, pat, i)
  }

  /** The first occurrence of `pat` in `s` at or after `from`. */
  function IndexOf(s: string, pat: string, from: nat): (r: Option<nat>)
    ensures r.Some? ==> from <= r.value && OccursAt(s, pat, r.value)
    ensures r.Some? ==> forall k :: from <= k < r.value ==> !OccursAt(s, pat, k)
    ensures r.None? <==> forall k :: from <= k ==> !OccursAt(s, pat, k)
    decreases |s| - from
  {
    if from + |pat| > |s| then None
    else if s[from..from + |pat|] == pat then
      assert OccursAt(s, pat, from);
      Some(from)
    else IndexOf(s, pat, from + 1)
  }

  /** The last occurrence of `pat` in `s` starting at or before `upTo`. */
  function LastIndexOfUpTo(s: string, pat: string, upTo: nat): (r: Option<nat>)
    ensures r.Some? ==> r.value <= upTo && OccursAt(s, pat, r.value)
    ensures r.Some? ==> forall k :: r.value < k <= upTo ==> !OccursAt(s, pat, k)
    ensures r.None? <==> forall k :: 0 <= k <= upTo ==> !OccursAt(s, pat, k)
  {
    if OccursAt(s, pat, upTo) then
      assert OccursAt(s, pat, upTo);
      Some(upTo)
    else if upTo == 0 then None
    else LastIndexOfUpTo(s, pat, upTo - 1)
  }

  /** `s.indexOf(pat)`, with -1 for "not found". */
  function JsIndexOf(s: string, pat: string): (r: int)
    ensures r == -1 <==> !Contains(s, pat)
    ensures r != -1 ==> OccursAt(s, pat, r) && forall k :: 0 <= k < r ==> !OccursAt(s, pat, k)
  {
    match IndexOf(s, pat, 0)
    case Some(i) => i
    case None => -1
  }

  /** `s.lastIndexOf(pat)`, with -1 for "not found". */
  function JsLastIndexOf(s: string, pat: string): (r: int)
    ensures r == -1 <==> !Contains(s, pat)
    ensures r != -1 ==> OccursAt(s, pat, r) && forall k :: r < k ==> !OccursAt(s, pat, k)
  {
    match LastIndexOfUpTo(s, pat, |s|)
    case Some(i) =>
      assert forall k :: i < k ==> !OccursAt(s, pat, k) by {
        forall k | i < k ensures !OccursAt(s, pat, k) {
          if k > |s| { assert k + |pat| > |s|; }
        }
      }
      i
    case None =>
      assert forall k :: 0 <= k ==> !OccursAt(s, pat, k) by {
        forall k | 0 <= k ensures !OccursAt(s, pat, k) {
          if k > |s| { assert k + |pat| > |s|; }
        }
      }
      -1
  }

  /** The first occurrence at or after `from` is where `IndexOf` points. */
  lemma FirstOccurrence(s: string, pat: string, from: nat, i: nat)
    requires from <= i && OccursAt(s, pat, i)
    requires forall k :: from <= k < i ==> !OccursAt(s, pat, k)
    ensures IndexOf(s, pat, from) == Some(i)
  {
  }

  /** An occurrence fixes the characters of `s` where it starts. */
  lemma OccurrenceStart(s: string, pat: string, i: int)
    ensures OccursAt(s, pat, i) && |pat| >= 2 ==> s[i] == pat[0] && s[i + 1] == pat[1]
  {
    if OccursAt(s, pat, i) && |pat| >= 2 {
      assert s[i..i + |pat|][0] == s[i] && s[i..i + |pat|][1] == s[i + 1];
    }
  }

  /** An occurrence of `inner` inside an occurrence of `outer` is an occurrence in `s`. */
  lemma {:induction false} OccursWithin(s: string, outer: string, inner: string, i: nat, j: nat)
    requires OccursAt(s, outer, i)
    requires OccursAt(outer, inner, j)
    ensures OccursAt(s, inner, i + j) && Contains(s, inner)
  {
    forall k | i + j <= k < i + j + |inner|
      ensures s[k] == inner[k - i - j]
    {
      assert s[k] == s[i..i + |outer|][k - i];
      assert outer[k - i] == outer[j..j + |inner|][k - i - j];
    }
    assert s[i + j..i + j + |inner|] == inner;
    assert 0 <= i + j <= |s| && OccursAt(s, inner, i + j);
  }
}
