/**
 * The page-by-page list loading shared by the index, category and search
 * pages: what a fetch delivered, the replace-or-append rule and the
 * "a full page means there may be more" rule.
 */
module Paging {
  import opened Wrappers

  /** `pagination.size`, never changed by any page. */
  const PageSize: nat := 10

  /** The `data` of a paged answer: `records` and `total` may be absent. */
  datatype PageData<T> = PageData(records: Option<seq<T>>, total: Option<int>)

  /** What an awaited page request produced: a rejection, or an answer whose `data` may be absent. */
  datatype Fetch<T> = FetchFailed | Fetched(data: Option<PageData<T>>)

  /** `res.data?.records || []` */
  function Records<T>(f: Fetch<T>): (r: seq<T>)
    ensures f.FetchFailed? || f.data.None? || f.data.value.records.None? ==> r == []
    ensures f.Fetched? && f.data.Some? && f.data.value.records.Some? ==> r == f.data.value.records.value
  {
    if f.Fetched? && f.data.Some? then f.data.value.records.GetOr([]) else []
  }

  /** `res.data?.total || 0` */
  function Total<T>(f: Fetch<T>): (r: int)
    ensures f.FetchFailed? || f.data.None? || f.data.value.total.None? ==> r == 0
    ensures f.Fetched? && f.data.Some? && f.data.value.total.Some? ==> r == f.data.value.total.value
  {
    if f.Fetched? && f.data.Some? then f.data.value.total.GetOr(0) else 0
  }

  /** `hasMore`: the page came back full. */
  predicate FullPage<T>(records: seq<T>) {
    |records| == PageSize
  }

  /** Page 1 replaces the list; any later page is appended to it. */
  function Merge<T>(current: int, existing: seq<T>, page: seq<T>): (r: seq<T>)
    ensures current == 1 ==> r == page
    ensures current != 1 ==> |r| == |existing| + |page| && r[..|existing|] == existing && r[|existing|..] == page
  {
    if current == 1 then page else existing + page
  }

  /** The pages one after another. */
  function Concat<T>(pages: seq<seq<T>>): seq<T> {
    if pages == [] then [] else pages[0] + Concat(pages[1..])
  }

  /** The list after pages 1, 2, ..., |pages| were loaded in turn, each merged at its own page number. */
  function LoadedPages<T>(pages: seq<seq<T>>): seq<T> {
    if pages == [] then [] else Merge(|pages|, LoadedPages(pages[..|pages| - 1]), pages[|pages| - 1])
  }

  lemma {:induction false} ConcatSnoc<T>(pages: seq<seq<T>>, last: seq<T>)
    ensures Concat(pages + [last]) == Concat(pages) + last
  {
    if pages != [] {
      assert (pages + [last])[1..] == pages[1..] + [last];
      ConcatSnoc(pages[1..], last);
    } else {
      assert Concat([last]) == last + Concat([last][1..]);
    }
  }

  /** Loading pages 1..n in order leaves exactly their concatenation: nothing is lost or repeated. */
  lemma {:induction false} LoadedPagesAreConcat<T>(pages: seq<seq<T>>)
    ensures LoadedPages(pages) == Concat(pages)
  {
    if pages != [] {
      var init := pages[..|pages| - 1];
      LoadedPagesAreConcat(init);
      ConcatSnoc(init, pages[|pages| - 1]);
      assert init + [pages[|pages| - 1]] == pages;
      if |pages| == 1 {
        assert init == [];
      }
    }
  }
}
