/** The few JavaScript string operations the models rely on:
    `split` with a one-character separator, `join`, `filter` of empty
    segments, `indexOf` on an array of strings, `trim` and `toLowerCase`. */
module Text {
  import opened RefLists

  /** Index of the first `c` in `s`, or `|s|` when `s` has none. */
  function Find(s: string, c: char): (i: nat)
    ensures i <= |s|
    ensures i < |s| ==> s[i] == c
    ensures forall j :: 0 <= j < i ==> s[j] != c
  {
    if |s| == 0 then 0
    else if s[0] == c then 0
    else 1 + Find(s[1..], c)
  }

  /** `s.split(c)`: the pieces between the occurrences of `c`, so an empty
      string gives one empty piece and adjacent separators give empty pieces. */
  function Split(s: string, c: char): (parts: seq<string>)
    ensures |parts| >= 1
    ensures forall k :: 0 <= k < |parts| ==> c !in parts[k]
    ensures parts[0] == s[..Find(s, c)]
    decreases |s|
  {
    var i := Find(s, c);
    if i == |s| then [s]
    else [s[..i]] + Split(s[i + 1..], c)
  }

  /** `parts.join(sep)` */
  function Join(parts: seq<string>, sep: string): string
    decreases |parts|
  {
    if |parts| == 0 then ""
    else if |parts| == 1 then parts[0]
    else parts[0] + sep + Join(parts[1..], sep)
  }

  /** Joining the pieces of a split with the separator gives the string back. */
  lemma {:induction false} JoinSplit(s: string, c: char)
    ensures Join(Split(s, c), [c]) == s
    decreases |s|
  {
    var i := Find(s, c);
    if i < |s| {
      var rest := s[i + 1..];
      SplitAtFirst(s, c);
      JoinSplit(rest, c);
      JoinCons(s[..i], Split(rest, c), [c]);
      Around(s, i);
    }
  }

  /** A string with a separator splits into the piece before its first
      occurrence and the split of what follows it. */
  lemma SplitAtFirst(s: string, c: char)
    requires Find(s, c) < |s|
    ensures Split(s, c) == [s[..Find(s, c)]] + Split(s[Find(s, c) + 1..], c)
  {
  }

  /** A string is what comes before a position, the character there and what
      comes after it. */
  lemma Around(s: string, i: nat)
    requires i < |s|
    ensures s == s[..i] + [s[i]] + s[i + 1..]
  {
  }

  /** Joining a piece in front of at least one more piece. */
  lemma JoinCons(x: string, tail: seq<string>, sep: string)
    requires |tail| >= 1
    ensures Join([x] + tail, sep) == x + sep + Join(tail, sep)
  {
    assert ([x] + tail)[1..] == tail;
  }

  /** Splitting a join of separator-free pieces gives the pieces back. */
  lemma {:induction false} SplitJoin(parts: seq<string>, c: char)
    requires |parts| >= 1
    requires forall k :: 0 <= k < |parts| ==> c !in parts[k]
    ensures Split(Join(parts, [c]), c) == parts
    decreases |parts|
  {
    if |parts| == 1 {
      assert Find(parts[0], c) == |parts[0]|;
    } else {
      var head := parts[0];
      var tail := Join(parts[1..], [c]);
      var s := head + [c] + tail;
      assert Join(parts, [c]) == s;
      FindAfterFree(head, c, tail);
      assert s[..|head|] == head;
      assert s[|head| + 1..] == tail;
      SplitJoin(parts[1..], c);
      assert [parts[0]] + parts[1..] == parts;
    }
  }

  lemma FindAfterFree(head: string, c: char, tail: string)
    requires c !in head
    ensures Find(head + [c] + tail, c) == |head|
  {
    var s := head + [c] + tail;
    assert forall k :: 0 <= k < |head| ==> s[k] == head[k];
    assert s[|head|] == c;
  }

  /** The pieces of `parts` that are not empty, in their original order
      (`filter(segment => segment.length > 0)`). */
  function NonEmpty(parts: seq<string>): (r: seq<string>)
    ensures forall k :: 0 <= k < |r| ==> |r[k]| > 0 && r[k] in parts
    decreases |parts|
  {
    if |parts| == 0 then []
    else (if |parts[0]| > 0 then [parts[0]] else []) + NonEmpty(parts[1..])
  }

  /** The filter keeps every non-empty piece, in its original order and as
      often as it occurs, so it is exactly `parts` without its empty pieces. */
  lemma NonEmptyIsFilter(parts: seq<string>)
    ensures forall p :: p in parts && |p| > 0 ==> p in NonEmpty(parts)
    ensures IsSubsequence(NonEmpty(parts), parts)
    ensures forall p :: |p| > 0 ==> multiset(NonEmpty(parts))[p] == multiset(parts)[p]
  {
    NonEmptyInOrder(parts);
    NonEmptyCounts(parts);
  }

  lemma {:induction false} NonEmptyInOrder(parts: seq<string>)
    ensures IsSubsequence(NonEmpty(parts), parts)
    decreases |parts|
  {
    if |parts| > 0 {
      NonEmptyInOrder(parts[1..]);
      var rest := NonEmpty(parts[1..]);
      if |parts[0]| > 0 {
        assert NonEmpty(parts)[1..] == rest;
      } else {
        assert NonEmpty(parts) == rest;
        SubsequenceOfTail(rest, parts);
      }
    }
  }

  lemma NonEmptyCounts(parts: seq<string>)
    ensures forall p :: |p| > 0 ==> multiset(NonEmpty(parts))[p] == multiset(parts)[p]
  {
    forall p | |p| > 0 ensures multiset(NonEmpty(parts))[p] == multiset(parts)[p] {
      NonEmptyCount(parts, p);
    }
  }

  lemma {:induction false} NonEmptyCount(parts: seq<string>, p: string)
    requires |p| > 0
    ensures multiset(NonEmpty(parts))[p] == multiset(parts)[p]
    decreases |parts|
  {
    if |parts| > 0 {
      NonEmptyCount(parts[1..], p);
      var rest := NonEmpty(parts[1..]);
      assert parts == [parts[0]] + parts[1..];
      assert multiset(parts) == multiset{parts[0]} + multiset(parts[1..]);
      if |parts[0]| > 0 {
        assert multiset(NonEmpty(parts)) == multiset{parts[0]} + multiset(rest);
      } else {
        assert NonEmpty(parts) == rest;
      }
    }
  }

  /** `parts.indexOf(x)`: the first position of `x`, or -1. */
  function IndexOf(parts: seq<string>, x: string): (i: int)
    ensures -1 <= i < |parts|
    ensures 0 <= i ==> parts[i] == x && forall j :: 0 <= j < i ==> parts[j] != x
    ensures i == -1 <==> x !in parts
    decreases |parts|
  {
    if |parts| == 0 then -1
    else if parts[0] == x then 0
    else
      var j := IndexOf(parts[1..], x);
      if j == -1 then -1 else j + 1
  }

  /** The characters `String.prototype.trim` removes: ECMAScript white space
      and line terminators. */
  predicate IsSpace(c: char)
  {
    || c == ' ' || c == '\t' || c == '\n' || c == '\r'
    || c == '\U{000B}' || c == '\U{000C}' || c == '\U{00A0}' || c == '\U{1680}'
    || ('\U{2000}' <= c <= '\U{200A}')
    || c == '\U{2028}' || c == '\U{2029}' || c == '\U{202F}' || c == '\U{205F}'
    || c == '\U{3000}' || c == '\U{FEFF}'
  }

  /** Position of the first non-space character of `s`, or `|s|`. */
  function SkipSpace(s: string): (i: nat)
    ensures i <= |s|
    ensures forall j :: 0 <= j < i ==> IsSpace(s[j])
    ensures i < |s| ==> !IsSpace(s[i])
    decreases |s|
  {
    if |s| == 0 || !IsSpace(s[0]) then 0 else 1 + SkipSpace(s[1..])
  }

  /** Position just after the last non-space character of `s`, or 0. */
  function SkipSpaceBack(s: string): (j: nat)
    ensures j <= |s|
    ensures forall k :: j <= k < |s| ==> IsSpace(s[k])
    ensures j > 0 ==> !IsSpace(s[j - 1])
    decreases |s|
  {
    if |s| == 0 || !IsSpace(s[|s| - 1]) then |s| else SkipSpaceBack(s[..|s| - 1])
  }

  /** `s.trim()`: the infix of `s` left once the white space at both ends is
      gone.  The result neither starts nor ends with white space, and
      everything cut off on either side was white space. */
  function Trim(s: string): (r: string)
    ensures exists i, j ::
              && 0 <= i <= j <= |s| && r == s[i..j]
              && (forall k :: 0 <= k < i ==> IsSpace(s[k]))
              && (forall k :: j <= k < |s| ==> IsSpace(s[k]))
    ensures |r| > 0 ==> !IsSpace(r[0]) && !IsSpace(r[|r| - 1])
  {
    var i := SkipSpace(s);
    var t := s[i..];
    var j := SkipSpaceBack(t);
    var r := s[i..i + j];
    assert forall k :: i + j <= k < |s| ==> IsSpace(s[k]) by {
      forall k | i + j <= k < |s| ensures IsSpace(s[k]) {
        assert s[k] == t[k - i];
      }
    }
    assert |r| > 0 ==> r[0] == t[0] && r[|r| - 1] == t[j - 1];
    r
  }

  /** A string that has no white space at either end is left alone by `trim`. */
  lemma TrimOfTrimmed(s: string)
    requires |s| > 0 ==> !IsSpace(s[0]) && !IsSpace(s[|s| - 1])
    ensures Trim(s) == s
  {
    assert SkipSpace(s) == 0;
    assert s[0..] == s;
    assert SkipSpaceBack(s) == |s|;
  }

  /** `toLowerCase` on one character, for the ASCII letters. */
  function LowerChar(c: char): (d: char)
  {
    if 'A' <= c <= 'Z' then (c as int + 32) as char else c
  }

  /** `s.toLowerCase()`, for the ASCII letters. */
  function Lower(s: string): (r: string)
    ensures |r| == |s|
    ensures forall k :: 0 <= k < |s| ==> r[k] == LowerChar(s[k])
  {
    seq(|s|, k requires 0 <= k < |s| => LowerChar(s[k]))
  }

  /** Lower-casing leaves nothing to lower-case, and does not turn white space
      into something else or the other way round. */
  lemma LowerCharFacts(c: char)
    ensures !('A' <= LowerChar(c) <= 'Z')
    ensures LowerChar(LowerChar(c)) == LowerChar(c)
    ensures IsSpace(LowerChar(c)) <==> IsSpace(c)
  {
  }
}
