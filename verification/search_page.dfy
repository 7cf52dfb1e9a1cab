/**
 * pages/search/search.js: the bounded, de-duplicated search history and
 * the search-result pagination.
 */
module SearchPage {
  import opened Wrappers
  import opened Text
  import opened Lists
  import opened Dishes
  import opened Paging
  import opened Storage

  const MaxSearchHistory: nat := 10

  /** Search-history entries are keyed by the keyword itself. */
  function Keyword(s: string): string { s }

  /** `saveSearchHistory`: the keyword moves to the front, without duplicates, keeping at most ten. */
  function SavedHistory(history: seq<string>, keyword: string): (r: seq<string>)
    ensures 1 <= |r| <= MaxSearchHistory && r[0] == keyword
    ensures var n := |RemoveKey(history, Keyword, keyword)| + 1;
      |r| == if n <= MaxSearchHistory then n else MaxSearchHistory
    ensures r[1..] == RemoveKey(history, Keyword, keyword)[..|r| - 1]
  {
    var rest := RemoveKey(history, Keyword, keyword);
    var all := [keyword] + rest;
    var r := Take(all, MaxSearchHistory);
    assert all[1..] == rest;
    assert r[1..] == rest[..|r| - 1];
    r
  }

  /** The saved history holds the keyword exactly once, and the other entries keep their order. */
  lemma SavedHistoryShape(history: seq<string>, keyword: string)
    ensures var r := SavedHistory(history, keyword);
      multiset(r)[keyword] == 1 && IsSubsequence(r[1..], history)
  {
    var r := SavedHistory(history, keyword);
    var rest := RemoveKey(history, Keyword, keyword);
    var tail := rest[..|r| - 1];
    forall i | 0 <= i < |tail| ensures tail[i] != keyword {
      assert Keyword(rest[i]) != keyword;
    }
    assert r == [keyword] + tail;
    PrefixSubsequence(rest, history, |r| - 1);
  }

  /** Saving the same keyword twice in a row gives the same list as saving it once. */
  lemma SaveTwice(history: seq<string>, keyword: string)
    ensures SavedHistory(SavedHistory(history, keyword), keyword) == SavedHistory(history, keyword)
  {
    var r := SavedHistory(history, keyword);
    var rest := RemoveKey(history, Keyword, keyword);
    var tail := rest[..|r| - 1];
    assert !HasKey(tail, Keyword, keyword) by {
      forall i | 0 <= i < |tail| ensures Keyword(tail[i]) != keyword {
        assert tail[i] == rest[i];
      }
    }
    assert r == [keyword] + tail;
    assert r[1..] == tail;
    assert RemoveKey(r, Keyword, keyword) == RemoveKey(tail, Keyword, keyword);
    RemoveAbsentKey(tail, Keyword, keyword);
  }

  /** A history without duplicates stays without duplicates. */
  lemma SavedHistoryUnique(history: seq<string>, keyword: string)
    requires UniqueKeys(history, Keyword)
    ensures UniqueKeys(SavedHistory(history, keyword), Keyword)
  {
    var r := SavedHistory(history, keyword);
    var rest := RemoveKey(history, Keyword, keyword);
    RemoveKeepsUnique(history, Keyword, keyword);
    forall i, j | 0 <= i < j < |r| ensures r[i] != r[j] {
      assert r[j] == rest[j - 1];
      if i > 0 {
        assert r[i] == rest[i - 1];
      } else {
        assert Keyword(rest[j - 1]) != keyword;
      }
    }
  }

  /** The arguments of one `searchDish` request: the keyword sent and the page asked for. */
  datatype SearchQuery = SearchQuery(keyword: string, current: int)

  /** The search page's data. */
  class Page {
    var keyword: string
    var searchHistory: seq<string>
    var searchResults: seq<Dish>
    var loading: bool
    var hasSearched: bool
    var current: int
    var total: int
    var hasMore: bool
    var loadingMore: bool

    constructor ()
      ensures keyword == "" && searchHistory == [] && searchResults == []
      ensures !loading && !hasSearched && current == 1 && total == 0 && hasMore && !loadingMore
    {
      keyword, searchHistory, searchResults := "", [], [];
      loading, hasSearched := false, false;
      current, total, hasMore, loadingMore := 1, 0, true, false;
    }

    /** `loadSearchHistory`: shows the stored history. */
    method LoadSearchHistory(store: LocalStore)
      modifies this`searchHistory
      ensures searchHistory == store.searchHistory
    {
      searchHistory := store.searchHistory;
    }

    /** `saveSearchHistory`: stores and shows the updated history. */
    method SaveSearchHistory(store: LocalStore, k: string)
      modifies store`searchHistory, this`searchHistory
      ensures store.searchHistory == SavedHistory(old(store.searchHistory), k)
      ensures searchHistory == store.searchHistory
    {
      var history := store.searchHistory;
      history := RemoveKey(history, Keyword, k);
      history := [k] + history;
      if |history| > MaxSearchHistory {
        history := history[..MaxSearchHistory];
      }
      store.searchHistory := history;
      searchHistory := history;
    }

    /**
     * `performSearch`: a keyword that trims to nothing does nothing.
     * Otherwise the list is cleared and page 1 requested; an answer replaces
     * the results and is followed by saving the trimmed keyword, a failure
     * leaves the cleared list. Page 1 is asked for with the trimmed keyword.
     */
    method PerformSearch(store: LocalStore, res: Fetch<Dish>) returns (query: Option<SearchQuery>)
      modifies this`loading, this`hasSearched, this`current, this`searchResults, this`hasMore, this`total
      modifies this`searchHistory, store`searchHistory
      ensures query.Some? <==> old(Trim(keyword)) != ""
      ensures query.Some? ==> query.value == SearchQuery(old(Trim(keyword)), 1)
      ensures old(Trim(keyword)) == "" ==> unchanged(this) && unchanged(store)
      ensures old(Trim(keyword)) != "" ==> hasSearched && current == 1 && !loading && searchResults == Records(res)
      ensures old(Trim(keyword)) != "" ==> hasMore == (res.FetchFailed? || FullPage(Records(res)))
      ensures old(Trim(keyword)) != "" && res.FetchFailed? ==>
        total == old(total) && store.searchHistory == old(store.searchHistory) && searchHistory == old(searchHistory)
      ensures old(Trim(keyword)) != "" && res.Fetched? ==> total == Total(res)
      ensures old(Trim(keyword)) != "" && res.Fetched? ==> store.searchHistory == SavedHistory(old(store.searchHistory), old(Trim(keyword)))
      ensures old(Trim(keyword)) != "" && res.Fetched? ==> searchHistory == store.searchHistory
    {
      var k := Trim(keyword);
      if k == "" {
        return None;
      }
      var q := Search(store, k, res);
      query := Some(q);
    }

    /** `performSearch` past its guard, for the trimmed keyword `k`. */
    method Search(store: LocalStore, k: string, res: Fetch<Dish>) returns (query: SearchQuery)
      modifies this`loading, this`hasSearched, this`current, this`searchResults, this`hasMore, this`total
      modifies this`searchHistory, store`searchHistory
      ensures query == SearchQuery(k, 1)
      ensures hasSearched && current == 1 && !loading && searchResults == Records(res)
      ensures hasMore == (res.FetchFailed? || FullPage(Records(res)))
      ensures res.FetchFailed? ==>
        total == old(total) && store.searchHistory == old(store.searchHistory) && searchHistory == old(searchHistory)
      ensures res.Fetched? ==>
        total == Total(res) && store.searchHistory == SavedHistory(old(store.searchHistory), k) && searchHistory == store.searchHistory
    {
      loading, hasSearched, current, searchResults, hasMore := true, true, 1, [], true;
      query := SearchQuery(k, current);
      if res.Fetched? {
        var results := Records(res);
        searchResults, total, hasMore := results, Total(res), FullPage(results);
        SaveSearchHistory(store, k);
      }
      loading := false;
    }

    /** `onReachBottom`: asks for the next page only after a search, with more to come and none in flight. */
    method OnReachBottom() returns (query: Option<SearchQuery>)
      modifies this`loadingMore
      ensures query.Some? <==> old(hasMore) && !old(loadingMore) && hasSearched
      ensures query.Some? ==> query.value == SearchQuery(keyword, current + 1)
      ensures loadingMore == (old(loadingMore) || query.Some?)
    {
      query := None;
      if hasMore && !loadingMore && hasSearched {
        query := LoadMoreResults();
      }
    }

    /**
     * `loadMoreResults` up to its await: nothing while a load is in flight,
     * otherwise mark one in flight and ask for the next page. That request
     * sends the page's keyword as it stands, not trimmed as page 1 sent it.
     */
    method LoadMoreResults() returns (query: Option<SearchQuery>)
      modifies this`loadingMore
      ensures query.Some? == !old(loadingMore)
      ensures query.Some? ==> query.value == SearchQuery(keyword, current + 1)
      ensures loadingMore
    {
      if loadingMore {
        return None;
      }
      loadingMore := true;
      query := Some(SearchQuery(keyword, current + 1));
    }

    /**
     * `loadMoreResults` after its await: an answer is appended and the page
     * counter advances; a failure leaves results and counter as they were.
     * Either way the in-flight mark is cleared.
     */
    method OnMoreResults(res: Fetch<Dish>)
      requires loadingMore
      modifies this`searchResults, this`current, this`hasMore, this`loadingMore
      ensures !loadingMore
      ensures res.FetchFailed? ==> searchResults == old(searchResults) && current == old(current) && hasMore == old(hasMore)
      ensures res.Fetched? ==>
        searchResults == old(searchResults) + Records(res) && current == old(current) + 1 && hasMore == FullPage(Records(res))
    {
      if res.Fetched? {
        var more := Records(res);
        searchResults, current, hasMore := searchResults + more, current + 1, FullPage(more);
      }
      loadingMore := false;
    }

    /**
     * `onHotKeywordTap` and `onHistoryTap`: the tapped keyword becomes the
     * page's keyword and is searched as by `PerformSearch`.
     */
    method OnKeywordTap(store: LocalStore, k: string, res: Fetch<Dish>) returns (query: Option<SearchQuery>)
      modifies this`keyword, this`loading, this`hasSearched, this`current, this`searchResults, this`hasMore, this`total
      modifies this`searchHistory, store`searchHistory
      ensures keyword == k
      ensures query.Some? <==> Trim(k) != ""
      ensures query.Some? ==> query.value == SearchQuery(Trim(k), 1)
      ensures Trim(k) == "" ==>
        && loading == old(loading) && hasSearched == old(hasSearched) && current == old(current)
        && searchResults == old(searchResults) && hasMore == old(hasMore) && total == old(total)
        && searchHistory == old(searchHistory) && store.searchHistory == old(store.searchHistory)
      ensures Trim(k) != "" ==> hasSearched && current == 1 && !loading && searchResults == Records(res)
      ensures Trim(k) != "" ==> hasMore == (res.FetchFailed? || FullPage(Records(res)))
      ensures Trim(k) != "" && res.FetchFailed? ==>
        total == old(total) && store.searchHistory == old(store.searchHistory) && searchHistory == old(searchHistory)
      ensures Trim(k) != "" && res.Fetched? ==>
        total == Total(res) && store.searchHistory == SavedHistory(old(store.searchHistory), Trim(k)) && searchHistory == store.searchHistory
    {
      keyword := k;
      assert Trim(keyword) == Trim(k);
      query := PerformSearch(store, res);
    }

    /** `onClearHistory`: a confirmed dialog empties the shown and the stored history. */
    method OnClearHistory(store: LocalStore, confirmed: bool)
      modifies this`searchHistory, store`searchHistory
      ensures confirmed ==> searchHistory == [] && store.searchHistory == []
      ensures !confirmed ==> searchHistory == old(searchHistory) && store.searchHistory == old(store.searchHistory)
    {
      if confirmed {
        searchHistory := [];
        store.searchHistory := [];
      }
    }
  }
}

