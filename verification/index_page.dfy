/**
 * pages/index/index.js: the home page with banners, the first categories,
 * and the sorted, page-by-page list of all dishes.
 */
module IndexPage {
  import opened Wrappers
  import opened Text
  import opened Lists
  import opened Dishes
  import opened Paging

  /** Only this many categories are shown on the home page. */
  const MaxHomeCategories: nat := 8

  datatype SortType = Collect | View | Latest

  datatype Banner = Banner(image: string, linkType: string, linkValue: string)

  /** The banner and category answers, once both requests succeeded; either `data` may be absent. */
  datatype Home = Home(banners: Option<seq<Banner>>, categories: Option<seq<Category>>)

  /** `(categoryRes.data || []).slice(0, 8)`: the leading categories, at most eight of them. */
  function HomeCategories(data: Option<seq<Category>>): (r: seq<Category>)
    ensures |r| <= MaxHomeCategories
    ensures data.None? ==> r == []
    ensures data.Some? ==> |r| <= |data.value| && r == data.value[..|r|]
    ensures data.Some? && |data.value| >= MaxHomeCategories ==> |r| == MaxHomeCategories
    ensures data.Some? && |data.value| < MaxHomeCategories ==> r == data.value
  {
    Take(data.GetOr([]), MaxHomeCategories)
  }

  /**
   * `onSearchConfirm`: the typed value, or the remembered one when the
   * typed value is empty, is trimmed; the search page is opened only for a
   * keyword that is not blank, and with the trimmed keyword.
   */
  function SearchTarget(value: string, searchValue: string): (r: Option<string>)
    ensures var keyword := if value != "" then value else searchValue;
      && (r.None? <==> AllSpace(keyword))
      && (r.Some? ==> r.value == Trim(keyword))
  {
    var keyword := if value != "" then value else searchValue;
    var k := Trim(keyword);
    if k != "" then Some(k) else None
  }

  /** The keyword handed to the search page trims to itself there, so that page searches for exactly it. */
  lemma SearchTargetStable(value: string, searchValue: string)
    requires SearchTarget(value, searchValue).Some?
    ensures Trim(SearchTarget(value, searchValue).value) == SearchTarget(value, searchValue).value
  {
    TrimIdempotent(if value != "" then value else searchValue);
  }

  /** The home page's data. */
  class Page {
    var banners: seq<Banner>
    var categories: seq<Category>
    var allDishes: seq<Dish>
    var loading: bool
    var searchValue: string
    var sortType: SortType
    var current: int
    var total: int
    var hasMore: bool
    var loadingMore: bool

    constructor ()
      ensures banners == [] && categories == [] && allDishes == [] && loading && searchValue == ""
      ensures sortType == Collect && current == 1 && total == 0 && hasMore && !loadingMore
    {
      banners, categories, allDishes, loading, searchValue := [], [], [], true, "";
      sortType, current, total, hasMore, loadingMore := Collect, 1, 0, true, false;
    }

    /**
     * `loadAllDishes`: an answer replaces the list on page 1 and is appended
     * on later pages; `hasMore` says the page came back full and `total`
     * defaults to 0. A failed request changes nothing.
     */
    method LoadAllDishes(res: Fetch<Dish>)
      modifies this`allDishes, this`total, this`hasMore
      ensures res.FetchFailed? ==> allDishes == old(allDishes) && total == old(total) && hasMore == old(hasMore)
      ensures res.Fetched? ==>
        && allDishes == Merge(current, old(allDishes), Records(res))
        && total == Total(res)
        && (hasMore <==> |Records(res)| == PageSize)
    {
      if res.FetchFailed? {
        return;
      }
      var newDishes := Records(res);
      allDishes := if current == 1 then newDishes else allDishes + newDishes;
      total := Total(res);
      hasMore := |newDishes| == PageSize;
    }

    /**
     * `loadData`: when both the banner and the category request succeed,
     * banners and the first eight categories are shown, the dish list
     * restarts at page 1 and that page is loaded. Otherwise only the
     * loading mark is cleared.
     */
    method LoadData(home: Option<Home>, res: Fetch<Dish>)
      modifies this`banners, this`categories, this`loading, this`current, this`allDishes, this`hasMore, this`total
      ensures !loading
      ensures home.None? ==>
        && banners == old(banners) && categories == old(categories) && allDishes == old(allDishes)
        && current == old(current) && hasMore == old(hasMore) && total == old(total)
      ensures home.Some? ==>
        && banners == home.value.banners.GetOr([])
        && categories == HomeCategories(home.value.categories)
        && current == 1
        && (res.FetchFailed? ==> allDishes == [] && hasMore && total == old(total))
        && (res.Fetched? ==> allDishes == Records(res) && total == Total(res) && hasMore == FullPage(Records(res)))
    {
      loading := true;
      if home.None? {
        loading := false;
        return;
      }
      banners := home.value.banners.GetOr([]);
      categories := HomeCategories(home.value.categories);
      loading, current, allDishes, hasMore := false, 1, [], true;
      LoadAllDishes(res);
    }

    /** `onPullDownRefresh`: back to page 1 with an empty list, then `loadData`. */
    method OnPullDownRefresh(home: Option<Home>, res: Fetch<Dish>)
      modifies this`banners, this`categories, this`loading, this`current, this`allDishes, this`hasMore, this`total
      ensures !loading && current == 1
      ensures home.None? ==>
        allDishes == [] && hasMore && banners == old(banners) && categories == old(categories) && total == old(total)
      ensures home.Some? ==> banners == home.value.banners.GetOr([]) && categories == HomeCategories(home.value.categories)
      ensures home.Some? && res.FetchFailed? ==> allDishes == [] && hasMore && total == old(total)
      ensures home.Some? && res.Fetched? ==> allDishes == Records(res) && hasMore == FullPage(Records(res)) && total == Total(res)
    {
      current, allDishes, hasMore := 1, [], true;
      LoadData(home, res);
    }

    /**
     * `refreshDishData`: page 1 is fetched again, as long as the list
     * already is, and replaces the list; the page counter and `hasMore`
     * stay. A failure changes nothing.
     */
    method RefreshDishData(res: Fetch<Dish>)
      modifies this`allDishes, this`total
      ensures res.FetchFailed? ==> allDishes == old(allDishes) && total == old(total)
      ensures res.Fetched? ==> allDishes == Records(res) && total == Total(res)
    {
      if res.Fetched? {
        allDishes, total := Records(res), Total(res);
      }
    }

    /** `onShow`: refreshes the list only when it is not empty. */
    method OnShow(res: Fetch<Dish>) returns (refreshed: bool)
      modifies this`allDishes, this`total
      ensures refreshed <==> old(allDishes) != []
      ensures !refreshed ==> allDishes == old(allDishes) && total == old(total)
      ensures refreshed && res.FetchFailed? ==> allDishes == old(allDishes) && total == old(total)
      ensures refreshed && res.Fetched? ==> allDishes == Records(res) && total == Total(res)
    {
      refreshed := |allDishes| > 0;
      if refreshed {
        RefreshDishData(res);
      }
    }

    /** `onReachBottom`: asks for the next page only with more to come and none in flight. */
    method OnReachBottom() returns (fetching: bool)
      modifies this`loadingMore, this`current
      ensures fetching <==> old(hasMore) && !old(loadingMore)
      ensures fetching ==> loadingMore && current == old(current) + 1
      ensures !fetching ==> loadingMore == old(loadingMore) && current == old(current)
    {
      fetching := false;
      if hasMore && !loadingMore {
        fetching := LoadMoreDishes();
      }
    }

    /**
     * `loadMoreDishes` up to its await: nothing while a load is in flight;
     * otherwise mark one in flight and advance the page counter, before the
     * request is made.
     */
    method LoadMoreDishes() returns (fetching: bool)
      modifies this`loadingMore, this`current
      ensures fetching == !old(loadingMore)
      ensures loadingMore
      ensures current == if fetching then old(current) + 1 else old(current)
    {
      if loadingMore {
        return false;
      }
      loadingMore := true;
      current := current + 1;
      fetching := true;
    }

    /**
     * `loadMoreDishes` after its await: `loadAllDishes` merges the answer
     * (its own failure is swallowed there), the advanced page counter is
     * kept even after a failure, and the in-flight mark is cleared.
     */
    method OnMoreDishes(res: Fetch<Dish>)
      requires loadingMore
      modifies this`allDishes, this`total, this`hasMore, this`loadingMore
      ensures !loadingMore && current == old(current)
      ensures res.FetchFailed? ==> allDishes == old(allDishes) && hasMore == old(hasMore) && total == old(total)
      ensures res.Fetched? ==> total == Total(res)
      ensures res.Fetched? ==> allDishes == Merge(current, old(allDishes), Records(res)) && hasMore == FullPage(Records(res))
      ensures res.Fetched? && current != 1 ==> allDishes == old(allDishes) + Records(res)
    {
      LoadAllDishes(res);
      loadingMore := false;
    }

    /**
     * `onSortChange`: the active sort does nothing; another sort restarts
     * the list at page 1 and loads that page.
     */
    method OnSortChange(sort: SortType, res: Fetch<Dish>) returns (changed: bool)
      modifies this`sortType, this`current, this`allDishes, this`hasMore, this`total
      ensures changed <==> sort != old(sortType)
      ensures !changed ==> sortType == old(sortType) && current == old(current) && allDishes == old(allDishes)
                           && hasMore == old(hasMore) && total == old(total)
      ensures changed ==> sortType == sort && current == 1
      ensures changed && res.FetchFailed? ==> allDishes == [] && hasMore && total == old(total)
      ensures changed && res.Fetched? ==> allDishes == Records(res) && hasMore == FullPage(Records(res)) && total == Total(res)
    {
      if sort == sortType {
        return false;
      }
      sortType, current, allDishes, hasMore := sort, 1, [], true;
      LoadAllDishes(res);
      changed := true;
    }

    /** `onSearchInput`: remembers what was typed. */
    method OnSearchInput(value: string)
      modifies this`searchValue
      ensures searchValue == value
    {
      searchValue := value;
    }

    /** `onSearchConfirm`: the keyword the search page is opened with, if any. */
    method OnSearchConfirm(value: string) returns (target: Option<string>)
      ensures target == SearchTarget(value, searchValue)
      ensures target.Some? ==> Trim(target.value) == target.value
    {
      target := SearchTarget(value, searchValue);
      if target.Some? {
        SearchTargetStable(value, searchValue);
      }
    }
  }
}
