/** The arithmetic behind the admin report listing: reading the page and
    limit from the query, cutting one page out of the documents sorted
    newest first, and the pagination summary sent along with it. */
module Pagination {
  import opened Outcomes

  const DefaultLimit := 5
  const DefaultPage := 1
  /** The server's refusal of a negative skip; the message is abstracted. */
  const NegativeSkip := "skip value must be non-negative"

  /** The `limit` and `page` query parameters, already read as numbers; an
      absent or empty parameter is `None`. */
  datatype PageQuery = PageQuery(limit: Option<int>, page: Option<int>)

  datatype PageAndLimit = PageAndLimit(limit: int, page: int)

  /** `get_page_and_limit_from_request`: a parameter that is given is used
      as is, even when it is 0 or negative; a missing one takes its default. */
  function GetPageAndLimit(q: PageQuery): (r: PageAndLimit)
    ensures q.limit.Some? ==> r.limit == q.limit.value
    ensures q.limit.None? ==> r.limit == DefaultLimit
    ensures q.page.Some? ==> r.page == q.page.value
    ensures q.page.None? ==> r.page == DefaultPage
  {
    PageAndLimit(
      if q.limit.Some? then q.limit.value else DefaultLimit,
      if q.page.Some? then q.page.value else DefaultPage)
  }

  /** A document with its creation time. */
  datatype Timed<T> = Timed(createdAt: int, doc: T)

  /** Newest first. */
  predicate Descending<T>(s: seq<Timed<T>>)
  {
    forall i, j :: 0 <= i < j < |s| ==> s[i].createdAt >= s[j].createdAt
  }

  /** `x` placed before the first document no newer than it. */
  function Insert<T>(x: Timed<T>, s: seq<Timed<T>>): (r: seq<Timed<T>>)
    requires Descending(s)
    ensures Descending(r)
    ensures multiset(r) == multiset(s) + multiset{x}
    ensures r[0] == x || (|s| > 0 && r[0] == s[0])
    decreases |s|
  {
    if |s| == 0 then [x]
    else if s[0].createdAt <= x.createdAt then
      ConsDescending(x, s);
      [x] + s
    else
      var tail := s[1..];
      assert Descending(tail) by {
        assert forall i :: 0 <= i < |tail| ==> tail[i] == s[i + 1];
      }
      var rest := Insert(x, tail);
      assert s == [s[0]] + tail;
      ConsDescending(s[0], rest);
      [s[0]] + rest
  }

  /** A document no older than the first of a newest-first list may go in front. */
  lemma ConsDescending<T>(h: Timed<T>, t: seq<Timed<T>>)
    requires Descending(t)
    requires |t| > 0 ==> t[0].createdAt <= h.createdAt
    ensures Descending([h] + t)
  {
    var r := [h] + t;
    forall i, j | 0 <= i < j < |r| ensures r[i].createdAt >= r[j].createdAt {
      if i == 0 {
        assert r[j] == t[j - 1];
        if j > 1 { assert t[0].createdAt >= t[j - 1].createdAt; }
      } else {
        assert r[i] == t[i - 1] && r[j] == t[j - 1];
      }
    }
  }

  /** `sort({ createdAt: -1 })`: the same documents, newest first.  Documents
      created at the same time keep their relative order here; the database
      makes no promise about them. */
  function SortNewestFirst<T>(s: seq<Timed<T>>): (r: seq<Timed<T>>)
    ensures Descending(r)
    ensures multiset(r) == multiset(s)
    decreases |s|
  {
    if |s| == 0 then []
    else
      assert s == [s[0]] + s[1..];
      Insert(s[0], SortNewestFirst(s[1..]))
  }

  function Min(a: int, b: int): int
  {
    if a <= b then a else b
  }

  function Abs(n: int): nat
  {
    if n >= 0 then n else -n
  }

  /** How many of `n` documents are left after skipping `skip`. */
  function Remaining(n: nat, skip: nat): nat
  {
    if skip < n then n - skip else 0
  }

  /** `skip(skip).limit(limit)`: the documents after the first `skip`, at
      most `|limit|` of them, and all of them when `limit` is 0. */
  function Window<T>(s: seq<T>, skip: nat, limit: int): (r: seq<T>)
    ensures |r| == if limit == 0 then Remaining(|s|, skip) else Min(Abs(limit), Remaining(|s|, skip))
    ensures forall k :: 0 <= k < |r| ==> skip + k < |s| && r[k] == s[skip + k]
  {
    var from := Min(skip, |s|);
    if limit == 0 then s[from..]
    else s[from..Min(skip + Abs(limit), |s|)]
  }

  /** `get_paginated_documents_from_mongo_db(query, page, limit, "createdAt")`:
      skip `(page - 1) * limit` documents of the newest-first order and keep
      `limit`.  A negative skip is refused by the server, and the refusal is
      rethrown as a plain `Error`. */
  function Paginate<T>(docs: seq<Timed<T>>, page: int, limit: int): (r: Result<seq<Timed<T>>>)
    ensures r.Fail? <==> (page - 1) * limit < 0
    ensures r.Fail? ==> r.error == Raise(NegativeSkip)
    ensures r.Ok? ==> Descending(r.value) && multiset(r.value) <= multiset(docs)
    ensures r.Ok? ==>
              var skip := (page - 1) * limit;
              var sorted := SortNewestFirst(docs);
              && |r.value| == (if limit == 0 then Remaining(|docs|, skip) else Min(Abs(limit), Remaining(|docs|, skip)))
              && forall k :: 0 <= k < |r.value| ==> skip + k < |sorted| && r.value[k] == sorted[skip + k]
  {
    var skip := (page - 1) * limit;
    if skip < 0 then Fail(Raise(NegativeSkip))
    else
      WindowOfSorted(docs, skip, limit);
      var w := Window(SortNewestFirst(docs), skip, limit);
      Ok(w)
  }

  /** A window of the newest-first order is itself newest first and holds
      only documents of the input, and is as long as `Window` promises. */
  lemma WindowOfSorted<T>(docs: seq<Timed<T>>, skip: nat, limit: int)
    ensures var w := Window(SortNewestFirst(docs), skip, limit);
            && Descending(w) && multiset(w) <= multiset(docs)
            && |w| == (if limit == 0 then Remaining(|docs|, skip) else Min(Abs(limit), Remaining(|docs|, skip)))
            && forall k :: 0 <= k < |w| ==> skip + k < |SortNewestFirst(docs)| && w[k] == SortNewestFirst(docs)[skip + k]
  {
    SortedLength(docs);
    WindowIsSlice(SortNewestFirst(docs), skip, limit);
  }

  /** A window is a slice. */
  lemma WindowIsSlice<T>(s: seq<Timed<T>>, skip: nat, limit: int)
    requires Descending(s)
    ensures Descending(Window(s, skip, limit)) && multiset(Window(s, skip, limit)) <= multiset(s)
  {
    var from := Min(skip, |s|);
    var to := if limit == 0 then |s| else Min(skip + Abs(limit), |s|);
    assert Window(s, skip, limit) == s[from..to];
    SliceOfDescending(s, from, to);
    SliceMultiset(s, from, to);
  }

  lemma SortedLength<T>(docs: seq<Timed<T>>)
    ensures |SortNewestFirst(docs)| == |docs|
  {
    assert |multiset(SortNewestFirst(docs))| == |multiset(docs)|;
  }

  lemma SliceOfDescending<T>(s: seq<Timed<T>>, i: nat, j: nat)
    requires i <= j <= |s|
    requires Descending(s)
    ensures Descending(s[i..j])
  {
    assert forall a :: 0 <= a < j - i ==> s[i..j][a] == s[i + a];
  }

  lemma SliceMultiset<T>(s: seq<T>, i: nat, j: nat)
    requires i <= j <= |s|
    ensures multiset(s[i..j]) <= multiset(s)
  {
    assert s == s[..i] + s[i..j] + s[j..];
  }

  /** `Math.ceil(a / b)` for a non-zero divisor: the least integer not below
      the quotient. */
  function CeilDiv(a: int, b: int): (q: int)
    requires b != 0
    ensures b > 0 ==> q * b >= a && (q - 1) * b < a
    ensures b < 0 ==> q * b <= a && (q - 1) * b > a
  {
    if b > 0 then
      var f := (-a) / b;
      assert f * b <= -a < f * b + b;
      -f
    else
      var f := a / (-b);
      assert f * (-b) <= a < f * (-b) + (-b);
      -f
  }

  /** The pagination summary; `totalPages` is null when the limit is 0,
      where the division gives no number. */
  datatype Summary = Summary(page: int, total: nat, limit: int, totalPages: Option<int>)

  /** `get_pagination(count, page, limit)`: the request's page and limit, the
      total count, and how many pages of `limit` documents hold them. */
  function GetPagination(total: nat, page: int, limit: int): (r: Summary)
    ensures r.page == page && r.total == total && r.limit == limit
    ensures r.totalPages.None? <==> limit == 0
    ensures limit > 0 ==> r.totalPages.value * limit >= total && (r.totalPages.value - 1) * limit < total
  {
    Summary(page, total, limit, if limit == 0 then None else Some(CeilDiv(total, limit)))
  }

  /** The first `n` pages of `limit` documents, one after the other. */
  function Pages<T>(s: seq<T>, limit: int, n: nat): seq<T>
    requires limit > 0
  {
    if n == 0 then [] else Pages(s, limit, n - 1) + Window(s, (n - 1) * limit, limit)
  }

  lemma {:induction false} PagesPrefix<T>(s: seq<T>, limit: int, n: nat)
    requires limit > 0
    ensures Pages(s, limit, n) == s[..Min(n * limit, |s|)]
  {
    if n > 0 {
      PagesPrefix(s, limit, n - 1);
      var a := Min((n - 1) * limit, |s|);
      var b := Min(n * limit, |s|);
      assert (n - 1) * limit + limit == n * limit;
      assert Window(s, (n - 1) * limit, limit) == s[a..b];
      assert s[..a] + s[a..b] == s[..b];
    }
  }

  /** With a positive limit, the pages 1 to `totalPages` hold every document
      exactly once, in order, and the page after them is empty. */
  lemma PagesCoverAll<T>(s: seq<T>, limit: int)
    requires limit > 0
    ensures var n := GetPagination(|s|, 1, limit).totalPages.value;
            && n >= 0
            && Pages(s, limit, n) == s
            && Window(s, n * limit, limit) == []
  {
    var n := GetPagination(|s|, 1, limit).totalPages.value;
    PagesPrefix(s, limit, n);
    assert s[..|s|] == s;
  }

  /** With a positive limit, page `page` is what the first `page` pages
      hold beyond the first `page - 1`: the pages follow one another through
      the newest-first order without gap or overlap. */
  lemma PaginateIsNextPage<T>(docs: seq<Timed<T>>, page: int, limit: int)
    requires page >= 1 && limit > 0
    ensures Paginate(docs, page, limit).Ok?
    ensures Pages(SortNewestFirst(docs), limit, page - 1) + Paginate(docs, page, limit).value
            == Pages(SortNewestFirst(docs), limit, page)
  {
    assert (page - 1) * limit >= 0;
  }

  /** A request without parameters gets the five newest documents. */
  lemma DefaultsGiveNewestFive<T>(docs: seq<Timed<T>>)
    ensures var q := GetPageAndLimit(PageQuery(None, None));
            var r := Paginate(docs, q.page, q.limit);
            && r.Ok? && |r.value| == Min(5, |docs|)
            && r.value == SortNewestFirst(docs)[..Min(5, |docs|)]
  {
    var sorted := SortNewestFirst(docs);
    assert |sorted| == |docs| by {
      assert |multiset(sorted)| == |multiset(docs)|;
    }
  }
}
