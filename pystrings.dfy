/**
 * The Python `str` operations the code relies on: `strip()`, `lower()`,
 * the `in` operator on strings and `split(sep)`. `Find` (the first-occurrence
 * search behind `in` and `split`) and `Join` (used to state what a split's
 * pieces and an accumulating loop hold) are this module's own helpers.
 * Strings are sequences of Unicode scalar values, as Python strings are
 * sequences of code points.
 */
module PyStrings {
  import opened Wrappers

  // ---------------------------------------------------------------------------
  // Whitespace and strip()
  // ---------------------------------------------------------------------------

  /** The characters for which Python's `str.isspace()` holds, which are the
      characters `str.strip()` removes when given no argument. */
  predicate IsSpace(c: char) {
    ('\t' <= c <= '\r') || ('\U{1C}' <= c <= '\U{1F}') || c == ' '
    || c == '\U{85}' || c == '\U{A0}' || c == '\U{1680}'
    || ('\U{2000}' <= c <= '\U{200A}') || c == '\U{2028}' || c == '\U{2029}'
    || c == '\U{202F}' || c == '\U{205F}' || c == '\U{3000}'
  }

  predicate AllSpace(s: string) {
    forall k :: 0 <= k < |s| ==> IsSpace(s[k])
  }

  /** A string that neither starts nor ends with whitespace. */
  predicate Stripped(s: string) {
    s == [] || (!IsSpace(s[0]) && !IsSpace(s[|s| - 1]))
  }

  /** Removes leading whitespace: the result is the longest suffix of `s`
      that does not start with whitespace. */
  function TrimStart(s: string): (r: string)
    ensures |r| <= |s| && r == s[|s| - |r|..]
    ensures forall k :: 0 <= k < |s| - |r| ==> IsSpace(s[k])
    ensures r != [] ==> !IsSpace(r[0])
  {
    if s != [] && IsSpace(s[0]) then
      var r := TrimStart(s[1..]);
      assert s[1..][|s| - 1 - |r|..] == s[|s| - |r|..];
      assert forall k :: 1 <= k < |s| - |r| ==> s[k] == s[1..][k - 1];
      r
    else s
  }

  /** Removes trailing whitespace: the result is the longest prefix of `s`
      that does not end with whitespace. */
  function TrimEnd(s: string): (r: string)
    ensures |r| <= |s| && r == s[..|r|]
    ensures forall k :: |r| <= k < |s| ==> IsSpace(s[k])
    ensures r != [] ==> !IsSpace(r[|r| - 1])
  {
    if s != [] && IsSpace(s[|s| - 1]) then
      var r := TrimEnd(s[..|s| - 1]);
      assert s[..|s| - 1][..|r|] == s[..|r|];
      assert forall k :: |r| <= k < |s| - 1 ==> s[k] == s[..|s| - 1][k];
      r
    else s
  }

  /** Python's `s.strip()`. */
  function Strip(s: string): (r: string)
    ensures Stripped(r)
    ensures |r| <= |s|
  {
    TrimEnd(TrimStart(s))
  }

  lemma ConcatSlices(s: string, t: string, r: string)
    requires |t| <= |s| && t == s[|s| - |t|..]
    requires |r| <= |t| && r == t[..|r|]
    ensures s == s[..|s| - |t|] + r + t[|r|..]
  {
    assert s == s[..|s| - |t|] + t;
    assert t == r + t[|r|..];
  }

  /** Strip keeps a contiguous middle part of its input and cuts off only
      whitespace on either side of it. */
  lemma StripDecompose(s: string) returns (front: string, back: string)
    ensures s == front + Strip(s) + back
    ensures AllSpace(front) && AllSpace(back)
  {
    var t := TrimStart(s);
    var r := TrimEnd(t);
    front := s[..|s| - |t|];
    back := t[|r|..];
    assert AllSpace(front) by {
      forall k | 0 <= k < |front| ensures IsSpace(front[k]) {
        assert front[k] == s[k];
      }
    }
    assert AllSpace(back) by {
      forall k | 0 <= k < |back| ensures IsSpace(back[k]) {
        assert back[k] == t[|r| + k];
      }
    }
    ConcatSlices(s, t, r);
  }

  lemma {:induction false} TrimStartOfSpacePrefix(front: string, rest: string)
    requires AllSpace(front)
    requires rest == [] || !IsSpace(rest[0])
    ensures TrimStart(front + rest) == rest
  {
    if front != [] {
      assert (front + rest)[1..] == front[1..] + rest;
      TrimStartOfSpacePrefix(front[1..], rest);
    } else {
      assert front + rest == rest;
    }
  }

  lemma {:induction false} TrimEndOfSpaceSuffix(rest: string, back: string)
    requires AllSpace(back)
    requires rest == [] || !IsSpace(rest[|rest| - 1])
    ensures TrimEnd(rest + back) == rest
  {
    if back != [] {
      var shorter := back[..|back| - 1];
      assert (rest + back)[..|rest + back| - 1] == rest + shorter;
      TrimEndOfSpaceSuffix(rest, shorter);
    } else {
      assert rest + back == rest;
    }
  }

  /** Strip is determined by its specification: whatever whitespace surrounds
      a string that neither starts nor ends with whitespace is removed, and
      nothing else is. */
  lemma StripUnique(front: string, core: string, back: string)
    requires AllSpace(front) && AllSpace(back) && Stripped(core)
    ensures Strip(front + core + back) == core
  {
    if core == [] {
      assert front + core + back == front + back;
      TrimStartOfSpacePrefix(front + back, []);
      assert front + back + [] == front + back;
    } else {
      assert front + core + back == front + (core + back);
      TrimStartOfSpacePrefix(front, core + back);
      TrimEndOfSpaceSuffix(core, back);
    }
  }

  /** strip() is idempotent. */
  lemma StripIdempotent(s: string)
    ensures Strip(Strip(s)) == Strip(s)
  {
    StripUnique([], Strip(s), []);
    assert [] + Strip(s) + [] == Strip(s);
  }

  /** Appending whitespace to a string does not change what strip() yields. */
  lemma StripIgnoresTrailingSpace(s: string, extra: string)
    requires AllSpace(extra)
    ensures Strip(s + extra) == Strip(s)
  {
    var front, back := StripDecompose(s);
    var core := Strip(s);
    assert AllSpace(back + extra) by {
      forall k | 0 <= k < |back + extra| ensures IsSpace((back + extra)[k]) {
        if k < |back| {
          assert (back + extra)[k] == back[k];
        } else {
          assert (back + extra)[k] == extra[k - |back|];
        }
      }
    }
    calc {
      s + extra;
      (front + core + back) + extra;
      front + core + (back + extra);
    }
    StripUnique(front, core, back + extra);
  }

  // ---------------------------------------------------------------------------
  // lower()
  // ---------------------------------------------------------------------------

  /** Python's lower-case mapping of one character, for every character whose
      lower-case form contains an ASCII letter: `A`..`Z`, the Kelvin sign
      (U+212A, lowered to `k`) and the capital I with dot above (U+0130,
      lowered to `i` followed by the combining dot U+0307). Other characters
      are left unchanged. */
  function LowerChar(c: char): (r: string)
    ensures |r| >= 1
    ensures forall k :: 0 <= k < |r| ==> !IsAsciiUpper(r[k])
  {
    if 'A' <= c <= 'Z' then [(c as int + 32) as char]
    else if c == '\U{212A}' then "k"
    else if c == '\U{130}' then "i\U{307}"
    else [c]
  }

  predicate IsAsciiUpper(c: char) {
    'A' <= c <= 'Z'
  }

  /** Python's `s.lower()`, character by character. The result is at least
      as long as the input and holds no upper-case ASCII letter. */
  function Lower(s: string): (r: string)
    ensures |r| >= |s|
    ensures forall k :: 0 <= k < |r| ==> !IsAsciiUpper(r[k])
  {
    if s == [] then []
    else
      var head, tail := LowerChar(s[0]), Lower(s[1..]);
      assert forall k :: |head| <= k < |head| + |tail| ==> (head + tail)[k] == tail[k - |head|];
      head + tail
  }

  lemma {:induction false} LowerAppend(a: string, b: string)
    ensures Lower(a + b) == Lower(a) + Lower(b)
  {
    if a == [] {
      assert a + b == b;
    } else {
      assert (a + b)[1..] == a[1..] + b;
      LowerAppend(a[1..], b);
    }
  }

  /** A string with no upper-case letter is its own lower-case form. */
  lemma {:induction false} LowerOfLowerCase(s: string)
    requires forall k :: 0 <= k < |s| ==> LowerChar(s[k]) == [s[k]]
    ensures Lower(s) == s
  {
    if s != [] {
      LowerOfLowerCase(s[1..]);
    }
  }

  // ---------------------------------------------------------------------------
  // Substring search: the `in` operator and str.find
  // ---------------------------------------------------------------------------

  /** `key` occurs in `s` starting at index `i`. */
  predicate OccursAt(s: string, key: string, i: nat) {
    i + |key| <= |s| && s[i..i + |key|] == key
  }

  /** The first index at or after `from` where `key` occurs in `s`. */
  function FindFrom(s: string, key: string, from: nat): (r: Option<nat>)
    requires from <= |s|
    ensures r.Some? ==> from <= r.value && OccursAt(s, key, r.value)
    ensures r.Some? ==> forall j :: from <= j < r.value ==> !OccursAt(s, key, j)
    ensures r.None? ==> forall j :: from <= j ==> !OccursAt(s, key, j)
    decreases |s| - from
  {
    if OccursAt(s, key, from) then Some(from)
    else if from == |s| then None
    else FindFrom(s, key, from + 1)
  }

  /** Python's `s.find(key)`, with `None` for -1. */
  function Find(s: string, key: string): (r: Option<nat>)
    ensures r.Some? ==> OccursAt(s, key, r.value)
    ensures r.Some? ==> forall j :: 0 <= j < r.value ==> !OccursAt(s, key, j)
    ensures r.None? ==> forall j :: !OccursAt(s, key, j)
  {
    FindFrom(s, key, 0)
  }

  /** Python's `key in s` for strings. */
  predicate Contains(s: string, key: string)
    ensures Contains(s, key) <==> exists i :: OccursAt(s, key, i)
  {
    Find(s, key).Some?
  }

  /** The first occurrence is the one whose index no other occurrence precedes. */
  lemma FindFirst(s: string, key: string, i: nat)
    requires OccursAt(s, key, i)
    requires forall j :: 0 <= j < i ==> !OccursAt(s, key, j)
    ensures Find(s, key) == Some(i)
  {
  }

  lemma OccursInContext(a: string, key: string, b: string)
    ensures OccursAt(a + key + b, key, |a|)
  {
    assert (a + key + b)[|a|..|a| + |key|] == key;
  }

  /** A one-character key occurs exactly where that character stands. */
  lemma OccursAtChar(s: string, c: char, j: nat)
    ensures OccursAt(s, [c], j) <==> j < |s| && s[j] == c
  {
    if j < |s| {
      assert s[j..j + 1] == [s[j]];
    }
  }

  /** A character that is not found as a one-character substring is absent. */
  lemma AbsentChar(s: string, c: char)
    requires !Contains(s, [c])
    ensures c !in s
  {
    forall j: nat | j < |s| ensures s[j] != c {
      OccursAtChar(s, c, j);
    }
  }

  /** Strip only removes characters; it never introduces one. */
  lemma StripKeepsChars(s: string, c: char)
    requires c !in s
    ensures c !in Strip(s)
  {
    var front, back := StripDecompose(s);
    forall k | 0 <= k < |Strip(s)| ensures Strip(s)[k] != c {
      assert Strip(s)[k] == s[|front| + k];
    }
  }

  // ---------------------------------------------------------------------------
  // split(sep), and Join for stating what its pieces hold
  // ---------------------------------------------------------------------------

  /** Python's `s.split(sep)` for a non-empty separator (Python raises
      ValueError for an empty one): the left-to-right, non-overlapping split.
      `JoinSplit` and `SplitPiecesFree` single out these pieces only for a
      separator that cannot overlap itself, such as "\n" and "\nSummary:". */
  function Split(s: string, sep: string): (r: seq<string>)
    requires sep != []
    ensures |r| >= 1
    ensures |r| >= 2 <==> Contains(s, sep)
    decreases |s|
  {
    match Find(s, sep)
    case None => [s]
    case Some(i) => [s[..i]] + Split(s[i + |sep|..], sep)
  }

  /** The parts with `sep` between consecutive ones, as Python's
      `sep.join(parts)` builds them; the code itself never joins. */
  function Join(parts: seq<string>, sep: string): string {
    if parts == [] then ""
    else if |parts| == 1 then parts[0]
    else parts[0] + sep + Join(parts[1..], sep)
  }

  /** Joining the pieces of a split with the same separator gives back the
      original string. */
  lemma {:induction false} JoinSplit(s: string, sep: string)
    requires sep != []
    ensures Join(Split(s, sep), sep) == s
    decreases |s|
  {
    match Find(s, sep)
    case None =>
    case Some(i) =>
      var rest := s[i + |sep|..];
      JoinSplit(rest, sep);
      assert Split(s, sep)[1..] == Split(rest, sep);
      assert s == s[..i] + sep + rest by {
        assert s[i..i + |sep|] == sep;
      }
  }

  /** The text before the first occurrence of `key` does not contain it. */
  lemma BeforeFirstIsFree(s: string, key: string, i: nat)
    requires key != [] && Find(s, key) == Some(i)
    ensures !Contains(s[..i], key)
  {
    var head := s[..i];
    forall j: nat | OccursAt(head, key, j) ensures false {
      assert j < i;
      assert head[j..j + |key|] == s[j..j + |key|];
      assert OccursAt(s, key, j);
    }
  }

  /** No piece of a split contains the separator. */
  lemma {:induction false} SplitPiecesFree(s: string, sep: string, n: nat)
    requires sep != []
    requires n < |Split(s, sep)|
    ensures !Contains(Split(s, sep)[n], sep)
    decreases |s|
  {
    match Find(s, sep)
    case None =>
    case Some(i) =>
      var rest := s[i + |sep|..];
      assert Split(s, sep) == [s[..i]] + Split(rest, sep);
      if n == 0 {
        BeforeFirstIsFree(s, sep, i);
      } else {
        assert Split(s, sep)[n] == Split(rest, sep)[n - 1];
        SplitPiecesFree(rest, sep, n - 1);
      }
  }

  /** Appending one more part to a non-empty join puts one separator in front of it. */
  lemma {:induction false} JoinSnoc(parts: seq<string>, last: string, sep: string)
    requires parts != []
    ensures Join(parts + [last], sep) == Join(parts, sep) + sep + last
    decreases |parts|
  {
    if |parts| == 1 {
      assert parts + [last] == [parts[0], last];
    } else {
      assert (parts + [last])[1..] == parts[1..] + [last];
      JoinSnoc(parts[1..], last, sep);
    }
  }
}
