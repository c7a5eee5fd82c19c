/**
 * The list-endpoint pipeline every resource router repeats:
 * keep the rows a `where` clause matches, order them by one key
 * (`orderBy`), then cut out one page (`skip`/`take`); `total` is the
 * number of matching rows before paging.
 */
module Listing {
  import opened Common

  datatype Order = Asc | Desc

  /** `a` may come before `b` in the given order. */
  predicate InOrder(o: Order, a: int, b: int) {
    if o == Asc then a <= b else b <= a
  }

  ghost predicate SortedBy<T>(s: seq<T>, key: T -> int, o: Order) {
    forall i, j :: 0 <= i < j < |s| ==> InOrder(o, key(s[i]), key(s[j]))
  }

  /** The rows of `s` that `keep` accepts, in their original order. */
  function Filter<T>(s: seq<T>, keep: T -> bool): (r: seq<T>)
    ensures |r| <= |s|
    ensures forall i :: 0 <= i < |r| ==> r[i] in s && keep(r[i])
    ensures forall i :: 0 <= i < |s| && keep(s[i]) ==> s[i] in r
    ensures multiset(r) <= multiset(s)
  {
    if s == [] then []
    else
      assert s == [s[0]] + s[1..];
      (if keep(s[0]) then [s[0]] else []) + Filter(s[1..], keep)
  }

  /** A row the filter accepts is kept as often as the table holds it. */
  lemma {:induction false} FilterKeepsCounts<T>(s: seq<T>, keep: T -> bool, x: T)
    requires keep(x)
    ensures multiset(Filter(s, keep))[x] == multiset(s)[x]
  {
    if s != [] {
      FilterKeepsCounts(s[1..], keep, x);
      assert s == [s[0]] + s[1..];
    }
  }

  /** Filtering with a predicate that accepts everything keeps every row. */
  lemma {:induction false} FilterAll<T>(s: seq<T>, keep: T -> bool)
    requires forall i :: 0 <= i < |s| ==> keep(s[i])
    ensures Filter(s, keep) == s
  {
    if s != [] {
      FilterAll(s[1..], keep);
      assert [s[0]] + s[1..] == s;
    }
  }

  /** Filtering twice with the same predicate is filtering once. */
  lemma {:induction false} FilterIdempotent<T>(s: seq<T>, keep: T -> bool)
    ensures Filter(Filter(s, keep), keep) == Filter(s, keep)
  {
    FilterAll(Filter(s, keep), keep);
  }

  /** Two predicates that agree on every row filter alike. */
  lemma {:induction false} FilterSame<T>(s: seq<T>, f: T -> bool, g: T -> bool)
    requires forall i :: 0 <= i < |s| ==> f(s[i]) == g(s[i])
    ensures Filter(s, f) == Filter(s, g)
  {
    if s != [] {
      FilterSame(s[1..], f, g);
    }
  }

  /** Puts `x` into sorted `s` before the first row it may precede. */
  function Insert<T>(x: T, s: seq<T>, key: T -> int, o: Order): (r: seq<T>)
    requires SortedBy(s, key, o)
    ensures SortedBy(r, key, o)
    ensures multiset(r) == multiset(s) + multiset{x}
  {
    if s == [] then [x]
    else if InOrder(o, key(x), key(s[0])) then [x] + s
    else
      var t := Insert(x, s[1..], key, o);
      assert s == [s[0]] + s[1..];
      HeadPrecedes(s, x, t, key, o);
      [s[0]] + t
  }

  /** In `Insert`'s third case the head of `s` may precede every row of the rest. */
  lemma HeadPrecedes<T>(s: seq<T>, x: T, t: seq<T>, key: T -> int, o: Order)
    requires s != [] && SortedBy(s, key, o) && !InOrder(o, key(x), key(s[0]))
    requires multiset(t) == multiset(s[1..]) + multiset{x}
    ensures SortedBy(t, key, o) ==> SortedBy([s[0]] + t, key, o)
  {
    forall k | 0 <= k < |t| ensures InOrder(o, key(s[0]), key(t[k])) {
      assert t[k] in multiset(t);
      if t[k] != x {
        assert t[k] in multiset(s[1..]);
        var j :| 0 <= j < |s[1..]| && s[1..][j] == t[k];
        assert s[j + 1] == t[k];
      }
    }
  }

  /** `orderBy` on one key: a sorted permutation of the rows (insertion sort, stable). */
  function SortBy<T>(s: seq<T>, key: T -> int, o: Order): (r: seq<T>)
    ensures SortedBy(r, key, o)
    ensures multiset(r) == multiset(s)
  {
    if s == [] then []
    else
      assert s == [s[0]] + s[1..];
      Insert(s[0], SortBy(s[1..], key, o), key, o)
  }

  /** Sorting keeps exactly the rows it was given. */
  lemma SortKeepsRows<T>(s: seq<T>, key: T -> int, o: Order)
    ensures |SortBy(s, key, o)| == |s|
    ensures forall i :: 0 <= i < |s| ==> s[i] in SortBy(s, key, o)
    ensures forall i :: 0 <= i < |s| ==> SortBy(s, key, o)[i] in s
  {
    var r := SortBy(s, key, o);
    assert |multiset(r)| == |multiset(s)|;
    forall i | 0 <= i < |s| ensures s[i] in r {
      assert s[i] in multiset(s);
    }
    forall i | 0 <= i < |r| ensures r[i] in s {
      assert r[i] in multiset(r);
    }
  }

  /** `skip`/`take`: at most `take` rows starting at position `skip`. */
  function Window<T>(s: seq<T>, skip: nat, take: nat): (r: seq<T>)
    ensures |r| <= take
    ensures |r| == if skip >= |s| then 0 else Min(take, |s| - skip)
    ensures forall i :: 0 <= i < |r| ==> r[i] == s[skip + i]
  {
    s[Min(skip, |s|)..Min(skip + take, |s|)]
  }

  /** Two adjacent windows cover the window of their combined length: pages tile the list. */
  lemma AdjacentWindows<T>(s: seq<T>, skip: nat, n: nat, m: nat)
    ensures Window(s, skip, n) + Window(s, skip + n, m) == Window(s, skip, n + m)
  {
    var a, b, c := Window(s, skip, n), Window(s, skip + n, m), Window(s, skip, n + m);
    assert |a + b| == |c|;
    forall i | 0 <= i < |c| ensures (a + b)[i] == c[i] {
      if i >= |a| {
        assert |a| == n;
      }
    }
  }

  /** A listing result: one page of rows and the number of matches over all pages. */
  datatype Page<T> = Page(rows: seq<T>, total: nat)

  /** Where page number `page` (of `limit` rows) starts, as `(page - 1) * limit`. */
  function SkipOf(page: int, limit: int): int {
    (page - 1) * limit
  }

  /** The matching rows in list order: every match once, sorted by the key. */
  function Ordered<T>(rows: seq<T>, keep: T -> bool, key: T -> int, o: Order): (r: seq<T>)
    ensures SortedBy(r, key, o)
    ensures multiset(r) == multiset(Filter(rows, keep))
    ensures |r| == |Filter(rows, keep)|
    ensures forall i :: 0 <= i < |r| ==> keep(r[i]) && r[i] in rows
    ensures forall i :: 0 <= i < |rows| && keep(rows[i]) ==> multiset(r)[rows[i]] == multiset(rows)[rows[i]]
  {
    SortKeepsRows(Filter(rows, keep), key, o);
    forall i | 0 <= i < |rows| && keep(rows[i])
      ensures multiset(Filter(rows, keep))[rows[i]] == multiset(rows)[rows[i]]
    {
      FilterKeepsCounts(rows, keep, rows[i]);
    }
    SortBy(Filter(rows, keep), key, o)
  }

  /**
   * The filter / order / skip-take pipeline with the matching count beside
   * it: the page is the run of the ordered matches that starts at `skip`,
   * as long as `take` allows and the matches last.
   */
  function List<T>(rows: seq<T>, keep: T -> bool, key: T -> int, o: Order, skip: nat, take: nat): (p: Page<T>)
    ensures p.total == |Filter(rows, keep)|
    ensures |p.rows| == if skip >= p.total then 0 else Min(take, p.total - skip)
    ensures forall i :: 0 <= i < |p.rows| ==> p.rows[i] == Ordered(rows, keep, key, o)[skip + i]
    ensures forall i :: 0 <= i < |p.rows| ==> p.rows[i] in rows && keep(p.rows[i])
    ensures SortedBy(p.rows, key, o)
  {
    var ordered := Ordered(rows, keep, key, o);
    Page(Window(ordered, skip, take), |ordered|)
  }

  /** The rows of pages 1 to `pages` of `limit` rows each, concatenated. */
  function PagesOf<T>(ordered: seq<T>, limit: nat, pages: nat): seq<T>
  {
    if pages == 0 then [] else PagesOf(ordered, limit, pages - 1) + Window(ordered, (pages - 1) * limit, limit)
  }

  /** Reading pages 1, 2, ... one after another yields the ordered rows without gap or repeat. */
  lemma {:induction false} PagesTile<T>(ordered: seq<T>, limit: nat, pages: nat)
    ensures PagesOf(ordered, limit, pages) == Window(ordered, 0, pages * limit)
  {
    if pages > 0 {
      PagesTile(ordered, limit, pages - 1);
      var before := (pages - 1) * limit;
      assert before + limit == pages * limit;
      AdjacentWindows(ordered, 0, before, limit);
    }
  }

  /** Once the pages reach past the last match, they hold every match. */
  lemma PagesCoverAll<T>(ordered: seq<T>, limit: nat, pages: nat)
    requires pages * limit >= |ordered|
    ensures PagesOf(ordered, limit, pages) == ordered
  {
    PagesTile(ordered, limit, pages);
  }

  /** The rows of list pages 1 to `pages`, `limit` rows each, read one after another. */
  function ListedPages<T>(rows: seq<T>, keep: T -> bool, key: T -> int, o: Order, limit: nat, pages: nat): seq<T>
  {
    if pages == 0 then []
    else ListedPages(rows, keep, key, o, limit, pages - 1) + List(rows, keep, key, o, (pages - 1) * limit, limit).rows
  }

  /** Each list page is the window of the ordered matches it starts at. */
  lemma ListIsWindow<T>(rows: seq<T>, keep: T -> bool, key: T -> int, o: Order, skip: nat, take: nat)
    ensures List(rows, keep, key, o, skip, take).rows == Window(Ordered(rows, keep, key, o), skip, take)
  {
    var p, w := List(rows, keep, key, o, skip, take), Window(Ordered(rows, keep, key, o), skip, take);
    assert |p.rows| == |w|;
  }

  /**
   * Reading list pages 1, 2, ... in turn gives the ordered matches without
   * gap or repeat; once the pages reach past the count, they hold every
   * match, each exactly once, in list order.
   */
  lemma {:induction false} ListPagesTile<T>(rows: seq<T>, keep: T -> bool, key: T -> int, o: Order, limit: nat, pages: nat)
    ensures ListedPages(rows, keep, key, o, limit, pages) == Window(Ordered(rows, keep, key, o), 0, pages * limit)
    ensures pages * limit >= |Filter(rows, keep)| ==>
              && SortedBy(ListedPages(rows, keep, key, o, limit, pages), key, o)
              && multiset(ListedPages(rows, keep, key, o, limit, pages)) == multiset(Filter(rows, keep))
  {
    var ordered := Ordered(rows, keep, key, o);
    PagesMatch(rows, keep, key, o, limit, pages);
    PagesTile(ordered, limit, pages);
    if pages * limit >= |Filter(rows, keep)| {
      PagesCoverAll(ordered, limit, pages);
    }
  }

  /** One more list page and one more window extend the two readings alike. */
  lemma PagesStep<T>(rows: seq<T>, keep: T -> bool, key: T -> int, o: Order, limit: nat, pages: nat, skip: nat)
    requires pages > 0 && skip == (pages - 1) * limit
    ensures ListedPages(rows, keep, key, o, limit, pages)
            == ListedPages(rows, keep, key, o, limit, pages - 1) + List(rows, keep, key, o, skip, limit).rows
    ensures PagesOf(Ordered(rows, keep, key, o), limit, pages)
            == PagesOf(Ordered(rows, keep, key, o), limit, pages - 1) + Window(Ordered(rows, keep, key, o), skip, limit)
  {
  }

  /** The list pages are `PagesOf` the ordered matches. */
  lemma {:induction false} PagesMatch<T>(rows: seq<T>, keep: T -> bool, key: T -> int, o: Order, limit: nat, pages: nat)
    ensures ListedPages(rows, keep, key, o, limit, pages) == PagesOf(Ordered(rows, keep, key, o), limit, pages)
  {
    if pages > 0 {
      var skip: nat := (pages - 1) * limit;
      PagesMatch(rows, keep, key, o, limit, pages - 1);
      ListIsWindow(rows, keep, key, o, skip, limit);
      PagesStep(rows, keep, key, o, limit, pages, skip);
    }
  }

  /**
   * The first `n` rows of a sorted sequence come first: every row left
   * out is one that none of them may follow.
   */
  lemma SortedPrefixFirst<T>(s: seq<T>, n: nat, key: T -> int, o: Order)
    requires n <= |s| && SortedBy(s, key, o)
    ensures multiset(s[..n]) <= multiset(s)
    ensures forall x, i :: x in multiset(s) - multiset(s[..n]) && 0 <= i < n ==> InOrder(o, key(s[i]), key(x))
  {
    assert s == s[..n] + s[n..];
    assert multiset(s) == multiset(s[..n]) + multiset(s[n..]);
    forall x, i | x in multiset(s) - multiset(s[..n]) && 0 <= i < n ensures InOrder(o, key(s[i]), key(x)) {
      assert x in multiset(s[n..]);
      var k :| 0 <= k < |s[n..]| && s[n..][k] == x;
      assert s[n + k] == x;
    }
  }
}
