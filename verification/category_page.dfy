/**
 * pages/category/category.js: the category list, the dishes of one
 * category, and the hot dishes, each loaded page by page.
 */
module CategoryPage {
  import opened Wrappers
  import opened Dishes
  import opened Paging

  /** The page's `type`: 'category' or 'hot'. */
  datatype Kind = CategoryKind | Hot

  /** What a load asks the server for. */
  datatype Source = CategoryDishes(categoryId: Option<int>) | HotDishes | CategoryList

  /** `if (this.data.currentCategoryId)`: null and 0 are falsy. */
  predicate Truthy(categoryId: Option<int>) {
    categoryId.Some? && categoryId.value != 0
  }

  /** `loadData`'s choice: a category id first, then the hot kind, then the category list. */
  function LoadDataSource(categoryId: Option<int>, kind: Kind): (s: Source)
    ensures s.CategoryDishes? <==> Truthy(categoryId)
    ensures s.HotDishes? <==> !Truthy(categoryId) && kind.Hot?
    ensures s.CategoryList? <==> !Truthy(categoryId) && kind.CategoryKind?
    ensures s.CategoryDishes? ==> s.categoryId == categoryId
  {
    if Truthy(categoryId) then CategoryDishes(categoryId)
    else if kind.Hot? then HotDishes
    else CategoryList
  }

  /** `loadMoreDishes`'s choice: hot dishes for the hot kind, the current category's dishes otherwise. */
  function LoadMoreSource(categoryId: Option<int>, kind: Kind): (s: Source)
    ensures s.HotDishes? <==> kind.Hot?
    ensures s.CategoryDishes? <==> kind.CategoryKind?
    ensures s.CategoryDishes? ==> s.categoryId == categoryId
  {
    if kind.Hot? then HotDishes else CategoryDishes(categoryId)
  }

  /**
   * The two choices agree exactly when one of "a category id is set" and
   * "the kind is hot" holds: with neither, load-more asks for the dishes
   * of no category, and with both, the first load and load-more disagree.
   */
  lemma SourcesAgree(categoryId: Option<int>, kind: Kind)
    ensures LoadMoreSource(categoryId, kind) == LoadDataSource(categoryId, kind) <==> Truthy(categoryId) != (kind.Hot?)
  {
  }

  /** The category page's data. */
  class Page {
    var categories: seq<Category>
    var currentCategoryId: Option<int>
    var currentCategoryName: string
    var dishes: seq<Dish>
    var loading: bool
    var loadingMore: bool
    var hasMore: bool
    var current: int
    var total: int
    var kind: Kind

    /**
     * `onLoad` up to its `loadData` call: a category id argument (already
     * parsed) selects that category, otherwise a `type` of 'hot' selects the
     * hot dishes.
     */
    constructor (categoryArg: Option<int>, categoryNameArg: Option<string>, typeArg: string)
      ensures categories == [] && dishes == [] && loading && !loadingMore && hasMore && current == 1 && total == 0
      ensures categoryArg.Some? ==> currentCategoryId == categoryArg && currentCategoryName == categoryNameArg.GetOr("") && kind.CategoryKind?
      ensures categoryArg.None? && typeArg == "hot" ==> currentCategoryId.None? && currentCategoryName == "热门菜品" && kind.Hot?
      ensures categoryArg.None? && typeArg != "hot" ==> currentCategoryId.None? && currentCategoryName == "" && kind.CategoryKind?
    {
      categories, dishes, loading, loadingMore, hasMore, current, total := [], [], true, false, true, 1, 0;
      currentCategoryId, currentCategoryName, kind := None, "", CategoryKind;
      if categoryArg.Some? {
        currentCategoryId, currentCategoryName := categoryArg, categoryNameArg.GetOr("");
      } else if typeArg == "hot" {
        kind, currentCategoryName := Hot, "热门菜品";
      }
    }

    /** `loadCategories`: the answer's list, or an empty one when its `data` is absent; a failure changes nothing. */
    method LoadCategories(categoryRes: Option<Option<seq<Category>>>)
      modifies this`categories
      ensures categoryRes.None? ==> categories == old(categories)
      ensures categoryRes.Some? ==> categories == categoryRes.value.GetOr([])
    {
      if categoryRes.Some? {
        categories := categoryRes.value.GetOr([]);
      }
    }

    /**
     * `loadDishes` and `loadHotDishes` (the same bookkeeping for either
     * request): page 1 replaces the list, later pages are appended,
     * `hasMore` says the page came back full, `total` defaults to 0. A
     * failure changes nothing and is passed on to the caller.
     */
    method LoadDishes(res: Fetch<Dish>)
      modifies this`dishes, this`total, this`hasMore
      ensures res.FetchFailed? ==> dishes == old(dishes) && total == old(total) && hasMore == old(hasMore)
      ensures res.Fetched? ==>
        && dishes == Merge(current, old(dishes), Records(res))
        && total == Total(res)
        && (hasMore <==> |Records(res)| == PageSize)
    {
      if res.FetchFailed? {
        return;
      }
      var newDishes := Records(res);
      dishes := if current == 1 then newDishes else dishes + newDishes;
      total := Total(res);
      hasMore := |newDishes| == PageSize;
    }

    /**
     * `loadData`: loads from the source `LoadDataSource` picks (the dish
     * answer is used for either dish source), then clears the loading mark.
     */
    method LoadData(categoryRes: Option<Option<seq<Category>>>, res: Fetch<Dish>) returns (source: Source)
      modifies this`loading, this`categories, this`dishes, this`total, this`hasMore
      ensures source == LoadDataSource(currentCategoryId, kind)
      ensures !loading
      ensures source.CategoryList? ==>
        dishes == old(dishes) && total == old(total) && hasMore == old(hasMore)
        && categories == (if categoryRes.Some? then categoryRes.value.GetOr([]) else old(categories))
      ensures !source.CategoryList? ==> categories == old(categories)
      ensures !source.CategoryList? && res.FetchFailed? ==> dishes == old(dishes) && total == old(total) && hasMore == old(hasMore)
      ensures !source.CategoryList? && res.Fetched? ==>
        dishes == Merge(current, old(dishes), Records(res)) && total == Total(res) && hasMore == FullPage(Records(res))
    {
      loading := true;
      source := LoadDataSource(currentCategoryId, kind);
      if source.CategoryList? {
        LoadCategories(categoryRes);
      } else {
        LoadDishes(res);
      }
      loading := false;
    }

    /** `onPullDownRefresh`: back to page 1 with an empty list, then `loadData`. */
    method OnPullDownRefresh(categoryRes: Option<Option<seq<Category>>>, res: Fetch<Dish>) returns (source: Source)
      modifies this`current, this`loading, this`categories, this`dishes, this`total, this`hasMore
      ensures current == 1 && !loading
      ensures source == LoadDataSource(currentCategoryId, kind)
      ensures source.CategoryList? ==>
        dishes == [] && hasMore && total == old(total)
        && categories == (if categoryRes.Some? then categoryRes.value.GetOr([]) else old(categories))
      ensures !source.CategoryList? ==> categories == old(categories)
      ensures !source.CategoryList? && res.FetchFailed? ==> dishes == [] && hasMore && total == old(total)
      ensures !source.CategoryList? && res.Fetched? ==>
        dishes == Records(res) && hasMore == FullPage(Records(res)) && total == Total(res)
    {
      current, dishes, hasMore := 1, [], true;
      source := LoadData(categoryRes, res);
    }

    /** `onReachBottom`: asks for the next page only with more to come and none in flight. */
    method OnReachBottom() returns (fetching: Option<Source>)
      modifies this`loadingMore, this`current
      ensures fetching.Some? <==> old(hasMore) && !old(loadingMore)
      ensures fetching.Some? ==> fetching.value == LoadMoreSource(currentCategoryId, kind) && loadingMore && current == old(current) + 1
      ensures fetching.None? ==> loadingMore == old(loadingMore) && current == old(current)
    {
      fetching := None;
      if hasMore && !loadingMore {
        fetching := LoadMoreDishes();
      }
    }

    /**
     * `loadMoreDishes` up to its await: nothing while a load is in flight;
     * otherwise mark one in flight, advance the page counter and ask the
     * source `LoadMoreSource` picks.
     */
    method LoadMoreDishes() returns (fetching: Option<Source>)
      modifies this`loadingMore, this`current
      ensures fetching.Some? == !old(loadingMore)
      ensures loadingMore
      ensures fetching.Some? ==> fetching.value == LoadMoreSource(currentCategoryId, kind) && current == old(current) + 1
      ensures fetching.None? ==> current == old(current)
    {
      if loadingMore {
        return None;
      }
      loadingMore := true;
      current := current + 1;
      fetching := Some(LoadMoreSource(currentCategoryId, kind));
    }

    /**
     * `loadMoreDishes` after its await: the answer is merged as by
     * `LoadDishes`; after a failure the advanced page counter is kept. The
     * in-flight mark is cleared either way.
     */
    method OnMoreDishes(res: Fetch<Dish>)
      requires loadingMore
      modifies this`dishes, this`total, this`hasMore, this`loadingMore
      ensures !loadingMore && current == old(current)
      ensures res.FetchFailed? ==> dishes == old(dishes) && hasMore == old(hasMore) && total == old(total)
      ensures res.Fetched? ==> total == Total(res)
      ensures res.Fetched? ==> dishes == Merge(current, old(dishes), Records(res)) && hasMore == FullPage(Records(res))
      ensures res.Fetched? && current != 1 ==> dishes == old(dishes) + Records(res)
    {
      LoadDishes(res);
      loadingMore := false;
    }

    /**
     * `onCategoryTap`: selects the category, restarts its dishes at page 1
     * with `hasMore` set, and loads that page.
     */
    method OnCategoryTap(category: Category, res: Fetch<Dish>)
      modifies this`currentCategoryId, this`currentCategoryName, this`dishes, this`current, this`hasMore, this`total
      ensures currentCategoryId == Some(category.id) && currentCategoryName == category.name && current == 1
      ensures res.FetchFailed? ==> dishes == [] && hasMore && total == old(total)
      ensures res.Fetched? ==> dishes == Records(res) && hasMore == FullPage(Records(res)) && total == Total(res)
    {
      currentCategoryId, currentCategoryName := Some(category.id), category.name;
      dishes, current, hasMore := [], 1, true;
      LoadDishes(res);
    }

    /**
     * `onBackToCategories`: forgets the category, empties the dishes, goes
     * back to the category kind and reloads the categories. The page
     * counter, `hasMore` and `total` are left as they were.
     */
    method OnBackToCategories(categoryRes: Option<Option<seq<Category>>>)
      modifies this`currentCategoryId, this`currentCategoryName, this`dishes, this`kind, this`categories
      ensures currentCategoryId.None? && currentCategoryName == "" && dishes == [] && kind.CategoryKind?
      ensures categoryRes.None? ==> categories == old(categories)
      ensures categoryRes.Some? ==> categories == categoryRes.value.GetOr([])
      ensures current == old(current) && hasMore == old(hasMore) && total == old(total) && loadingMore == old(loadingMore)
    {
      currentCategoryId, currentCategoryName, dishes, kind := None, "", [], CategoryKind;
      LoadCategories(categoryRes);
    }
  }
}
