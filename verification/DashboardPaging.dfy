// The dashboard's numbered pages of a filtered and sorted list.
module DashboardPaging {

  class Params {
    var page: int
    const size: int
    const query: string
    const sort: string

    constructor (page: int, size: int, query: string, sort: string)
      ensures this.page == page && this.size == size && this.query == query && this.sort == sort
    {
      this.page, this.size, this.query, this.sort := page, size, query, sort;
    }
  }

  // ---------------------------------------------------------------- Ranges

  // The pages a list of total entries has, an empty list one.
  function TotalPages(total: nat, size: int): int
    requires size > 0
  {
    if total == 0 then 1 else (total + size - 1) / size
  }

  // The page shown for a requested one.
  function Shown(total: nat, size: int, page: int): int
    requires size > 0
  {
    if page > TotalPages(total, size) then TotalPages(total, size) else page
  }

  function Start(size: int, page: int): int { (page - 1) * size }

  function End(total: nat, size: int, page: int): int {
    if Start(size, page) + size > total then total else Start(size, page) + size
  }

  // paginationMeta; a page beyond the last is set to the last.
  method PaginationMeta(total: nat, p: Params) returns (start: int, end: int, totalPages: int)
    requires p.size > 0 && p.page >= 1
    modifies p
    ensures totalPages == TotalPages(total, p.size) && p.page == Shown(total, p.size, old(p.page))
    ensures start == Start(p.size, p.page) && end == End(total, p.size, p.page)
    ensures 1 <= p.page <= totalPages && 0 <= start <= end <= total
    ensures p.page == if old(p.page) <= totalPages then old(p.page) else totalPages
  {
    PagesCover(total, p.size);
    totalPages := (total + p.size - 1) / p.size;
    if totalPages < 1 { totalPages := 1; }
    if p.page > totalPages { p.page := totalPages; }
    PageBegins(total, p.size, p.page);
    start := (p.page - 1) * p.size;
    end := start + p.size;
    if end > total { end := total; }
    if start > total { start := total; }
  }

  // The pages are just enough for the entries.
  lemma PagesCover(total: nat, size: int)
    requires size > 0
    ensures TotalPages(total, size) >= 1
    ensures total > 0 ==> (TotalPages(total, size) - 1) * size < total <= TotalPages(total, size) * size
    ensures total == 0 ==> (total + size - 1) / size == 0
  {
    var q := (total + size - 1) / size;
    assert total + size - 1 == q * size + (total + size - 1) % size;
    assert (q - 1) * size == q * size - size;
    assert q < 1 ==> q * size <= 0;
  }

  lemma Scaled(a: int, b: int, size: int)
    requires size > 0 && a <= b
    ensures a * size <= b * size
  {
  }

  lemma PageBegins(total: nat, size: int, page: int)
    requires size > 0 && 1 <= page <= TotalPages(total, size)
    ensures 0 <= Start(size, page) <= total && (total > 0 ==> Start(size, page) < total)
    ensures page < TotalPages(total, size) <==> Start(size, page) + size < total
  {
    PagesCover(total, size);
    Scaled(page - 1, TotalPages(total, size) - 1, size);
    Scaled(0, page - 1, size);
    assert Start(size, page) + size == page * size;
    if page < TotalPages(total, size) {
      Scaled(page, TotalPages(total, size) - 1, size);
    } else {
      assert page == TotalPages(total, size);
    }
  }

  // The pages' ranges follow one another from 0 to total; only the last may be short, and
  // none is empty unless there is nothing.
  lemma RangesPartition(total: nat, size: int, page: int)
    requires size > 0 && 1 <= page <= TotalPages(total, size)
    ensures page == 1 ==> Start(size, page) == 0
    ensures page < TotalPages(total, size) ==>
      End(total, size, page) == Start(size, page + 1) && End(total, size, page) - Start(size, page) == size
    ensures page == TotalPages(total, size) ==> End(total, size, page) == total
    ensures total > 0 ==> Start(size, page) < End(total, size, page)
  {
    PagesCover(total, size);
    PageBegins(total, size, page);
    assert Start(size, page + 1) == Start(size, page) + size;
  }

  lemma NotBefore(size: int, p: int, q: int, i: int)
    requires size > 0 && p - 1 < q && q * size <= i
    ensures Start(size, p) + size <= i
  {
    Scaled(p, q, size);
    assert Start(size, p) + size == p * size;
  }

  lemma NotAfter(size: int, p: int, q: int, i: int)
    requires size > 0 && p - 1 > q && i < q * size + size
    ensures Start(size, p) > i
  {
    Scaled(q + 1, p - 1, size);
    assert (q + 1) * size == q * size + size;
  }

  // Every position is on exactly one page.
  lemma OnOnePage(total: nat, size: int, i: nat, p: int)
    requires size > 0 && i < total && 1 <= p <= TotalPages(total, size)
    ensures 1 <= i / size + 1 <= TotalPages(total, size)
    ensures Start(size, p) <= i < End(total, size, p) <==> p == i / size + 1
  {
    PagesCover(total, size);
    var q := i / size;
    var pages := TotalPages(total, size);
    assert q * size <= i < q * size + size && q >= 0;
    if q + 1 > pages { Scaled(pages, q, size); }
    if p - 1 < q {
      NotBefore(size, p, q, i);
    } else if p - 1 > q {
      NotAfter(size, p, q, i);
    } else {
      assert Start(size, p) == q * size;
    }
  }

  // ---------------------------------------------------------------- Pages of a list

  function Matching<T>(items: seq<T>, matches: T -> bool): seq<T> {
    if items == [] then []
    else Matching(items[..|items| - 1], matches) + if matches(items[|items| - 1]) then [items[|items| - 1]] else []
  }

  // The list the pages are cut from; arrange is the sort, which reorders its argument.
  function Arranged<T>(items: seq<T>, p: Params, matches: T -> bool, arrange: seq<T> -> seq<T>): seq<T> {
    var found := if p.query == "" then items else Matching(items, matches);
    if p.sort == "" then found else arrange(found)
  }

  datatype View<T> = View(items: seq<T>, page: int, totalItems: nat, totalPages: int, hasPrev: bool, hasNext: bool)

  function Slice<T>(list: seq<T>, size: int, page: int): seq<T>
    requires size > 0 && 1 <= page <= TotalPages(|list|, size)
  {
    PageBegins(|list|, size, page);
    list[Start(size, page)..End(|list|, size, page)]
  }

  // PaginateVolumes, with what it keeps of a volume left to matches and arrange.
  method Paginate<T>(items: seq<T>, p: Params, matches: T -> bool, arrange: seq<T> -> seq<T>) returns (r: View<T>)
    requires p.size > 0 && p.page >= 1
    modifies p
    ensures var list := Arranged(items, p, matches, arrange);
      && p.page == Shown(|list|, p.size, old(p.page)) && 1 <= p.page <= TotalPages(|list|, p.size)
      && r == View(Slice(list, p.size, p.page), p.page, |list|, TotalPages(|list|, p.size),
                        p.page > 1, p.page < TotalPages(|list|, p.size))
  {
    var list := items;
    if p.query != "" {
      list := [];
      for i := 0 to |items|
        invariant list == Matching(items[..i], matches)
      {
        assert items[..i + 1][..i] == items[..i];
        if matches(items[i]) { list := list + [items[i]]; }
      }
      assert items[..|items|] == items;
    }
    if p.sort != "" { list := arrange(list); }
    var total := |list|;
    var start, end, totalPages := PaginationMeta(total, p);
    var shown: seq<T> := [];
    if start < total { shown := list[start..end]; }
    assert shown == Slice(list, p.size, p.page);
    r := View(shown, p.page, total, totalPages, p.page > 1, p.page < totalPages);
  }

  // Pages 1 to n in a row.
  function Pages<T>(list: seq<T>, size: int, n: nat): seq<T>
    requires size > 0 && n <= TotalPages(|list|, size)
  {
    if n == 0 then [] else Pages(list, size, n - 1) + Slice(list, size, n)
  }

  lemma {:induction false} PagesArePrefix<T>(list: seq<T>, size: int, n: nat)
    requires size > 0 && 1 <= n <= TotalPages(|list|, size)
    ensures 0 <= End(|list|, size, n) <= |list| && Pages(list, size, n) == list[..End(|list|, size, n)]
  {
    RangesPartition(|list|, size, n);
    PageBegins(|list|, size, n);
    if n > 1 {
      PagesArePrefix(list, size, n - 1);
      RangesPartition(|list|, size, n - 1);
    }
  }

  // All pages in a row are the filtered and sorted list: every entry that matches is shown
  // exactly as often as it occurs, whatever order the sort chose.
  lemma AllPagesAreTheList<T>(items: seq<T>, p: Params, matches: T -> bool, arrange: seq<T> -> seq<T>)
    requires p.size > 0 && forall xs :: multiset(arrange(xs)) == multiset(xs)
    ensures var list := Arranged(items, p, matches, arrange);
      && TotalPages(|list|, p.size) >= 1
      && Pages(list, p.size, TotalPages(|list|, p.size)) == list
      && (forall x :: multiset(list)[x] == if p.query == "" || matches(x) then multiset(items)[x] else 0)
      && (p.query == "" && p.sort == "" ==> list == items)
      && (p.query == "" && p.sort != "" ==> list == arrange(items))
  {
    var list := Arranged(items, p, matches, arrange);
    PagesCover(|list|, p.size);
    PagesArePrefix(list, p.size, TotalPages(|list|, p.size));
    RangesPartition(|list|, p.size, TotalPages(|list|, p.size));
    MatchingCounts(items, matches);
    var found := if p.query == "" then items else Matching(items, matches);
    assert multiset(arrange(found)) == multiset(found);
  }

  lemma {:induction false} MatchingCounts<T>(items: seq<T>, matches: T -> bool)
    ensures forall x :: multiset(Matching(items, matches))[x] == if matches(x) then multiset(items)[x] else 0
  {
    if items != [] {
      MatchingCounts(items[..|items| - 1], matches);
      assert items == items[..|items| - 1] + [items[|items| - 1]];
    }
  }
}
