/** The reference lists the models keep on their documents (a tag's
    recipes, a user's recipes, followers, followings and saves) are only
    ever changed by MongoDB's `$push`, which appends and allows duplicates,
    and `$pull`, which removes every occurrence of a value. */
module RefLists {

  /** `$push`: `x` is appended, whether or not it is already there. */
  function Push<T>(s: seq<T>, x: T): (r: seq<T>)
    ensures |r| == |s| + 1 && r[..|s|] == s && r[|s|] == x
  {
    s + [x]
  }

  /** `$pull`: every occurrence of `x` is gone and every other element keeps
      its number of occurrences. */
  function Pull<T(==)>(s: seq<T>, x: T): (r: seq<T>)
    ensures x !in r
    ensures multiset(r) == multiset(s)[x := 0]
    decreases |s|
  {
    if |s| == 0 then []
    else
      assert s == [s[0]] + s[1..];
      (if s[0] == x then [] else [s[0]]) + Pull(s[1..], x)
  }

  /** `a` is `b` with some elements left out, the rest in the same order. */
  predicate IsSubsequence<T(==)>(a: seq<T>, b: seq<T>)
    decreases |b|
  {
    if |a| == 0 then true
    else if |b| == 0 then false
    else if a[0] == b[0] then IsSubsequence(a[1..], b[1..])
    else IsSubsequence(a, b[1..])
  }

  /** `$pull` keeps the remaining elements in their original order. */
  lemma {:induction false} PullIsSubsequence<T>(s: seq<T>, x: T)
    ensures IsSubsequence(Pull(s, x), s)
    decreases |s|
  {
    if |s| > 0 {
      PullIsSubsequence(s[1..], x);
      if s[0] == x {
        assert Pull(s, x) == Pull(s[1..], x);
        SubsequenceOfTail(Pull(s[1..], x), s);
      } else {
        assert Pull(s, x) == [s[0]] + Pull(s[1..], x);
        assert Pull(s, x)[1..] == Pull(s[1..], x);
      }
    }
  }

  lemma {:induction false} SubsequenceOfTail<T>(a: seq<T>, b: seq<T>)
    requires |b| > 0
    requires IsSubsequence(a, b[1..])
    ensures IsSubsequence(a, b)
    decreases |b|, 1
  {
    if |a| > 0 && a[0] == b[0] {
      if |b| > 1 {
        SubsequenceDropHead(a, b[1..]);
        assert b[1..][1..] == b[2..];
      } else {
        assert false;
      }
    }
  }

  lemma {:induction false} SubsequenceDropHead<T>(a: seq<T>, b: seq<T>)
    requires |a| > 0
    requires IsSubsequence(a, b)
    ensures IsSubsequence(a[1..], b)
    decreases |b|, 2
  {
    if |b| == 0 {
    } else if a[0] == b[0] {
      if |a| > 1 {
        SubsequenceOfTail(a[1..], b);
      }
    } else {
      SubsequenceDropHead(a, b[1..]);
      SubsequenceOfTail(a[1..], b);
    }
  }

  /** Pulling a value that is not in the list changes nothing. */
  lemma {:induction false} PullAbsent<T>(s: seq<T>, x: T)
    requires x !in s
    ensures Pull(s, x) == s
    decreases |s|
  {
    if |s| > 0 {
      PullAbsent(s[1..], x);
      assert [s[0]] + s[1..] == s;
    }
  }

  /** `$pull` is idempotent. */
  lemma PullIdempotent<T>(s: seq<T>, x: T)
    ensures Pull(Pull(s, x), x) == Pull(s, x)
  {
    PullAbsent(Pull(s, x), x);
  }

  /** `$pull` distributes over concatenation. */
  lemma {:induction false} PullAppend<T>(a: seq<T>, b: seq<T>, x: T)
    ensures Pull(a + b, x) == Pull(a, x) + Pull(b, x)
    decreases |a|
  {
    if |a| > 0 {
      assert (a + b)[1..] == a[1..] + b;
      PullAppend(a[1..], b, x);
    } else {
      assert a + b == b;
    }
  }

  /** Pulling a value removes whatever a push of that value added. */
  lemma PullAfterPush<T>(s: seq<T>, x: T)
    ensures Pull(Push(s, x), x) == Pull(s, x)
  {
    PullAppend(s, [x], x);
  }

  /** A push followed by a pull of the same value restores a list that did
      not hold the value. */
  lemma PushThenPullRestores<T>(s: seq<T>, x: T)
    requires x !in s
    ensures Pull(Push(s, x), x) == s
  {
    PullAfterPush(s, x);
    PullAbsent(s, x);
  }
}
