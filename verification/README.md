# Recipe mini-program client: a verified model of its page logic

This project models, in Dafny, the logic of a WeChat mini-program that
browses recipes ("dishes"). The program itself is mostly UI and platform
glue. What is modelled is the part that decides things:

- the local lists the pages keep in device storage:
  - the search history: at most 10 keywords, de-duplicated, newest first;
  - the view history: at most 100 dishes, updated in place;
  - the favorites, toggled from the dish page and removed from the favorites page;
- the page-by-page loading of dish lists on the home, category and search
  pages: page 1 replaces the list, later pages are appended, and a
  `loadingMore` flag keeps two loads from overlapping. After an answer,
  `hasMore` means "a full page of 10 came back"; a reload that fails
  leaves it set over an empty list, as it was set before the request;
- the cooking-step cursor of the dish page;
- `utils/request.js`: how the request headers are built, how a response
  is routed by transport status and embedded `code`, and the
  re-login-and-replay on code 401. It is a pure function over an
  injected script of transport answers and login outcomes;
- the formatting helpers of `utils/util.js`: two-digit padding, date
  formatting from integer components, relative-time buckets over an
  integer millisecond difference, and image-path classification.

Modules:

- `Wrappers`: `Option`.
- `Text`: JavaScript `trim`, decimal digits, `split`, `startsWith` and `includes` on `seq<char>`.
- `Lists`: `filter` by key, `findIndex`, `slice(0, n)`.
- `Dishes`: the records and `getDifficultyText`.
- `Paging`: the replace-or-append rule shared by three pages.
- `Storage`: the key-value store as a class with one field per key.
- One module per page (`SearchPage`, `DishDetailPage`, `FavoritesPage`, `IndexPage`, `CategoryPage`), each with a `Page` class whose fields are the page's `data` and whose methods are its handlers.
- `Request` and `Util`.

Each asynchronous handler is one atomic step. The awaited result is
a parameter (`Fetch<Dish>` is "the request failed" or "it answered, with
a `data` that may be absent").

The three load-more handlers (search, home and category pages) are each split at their `await`:

- the first step checks the guard, sets `loadingMore` and (on the index and category pages) advances the page counter;
- the second step requires `loadingMore` and merges the answer.

This keeps the guard meaningful: another load cannot start while the flag is set.

The re-login loop in `request` has no bound in the code: each 401
followed by a successful login sends the same request again.
`Request.UnboundedReplay` proves that n such rounds send the request
n + 1 times. The model terminates only because every round consumes one
transport answer from the injected script, which is finite.

The category page picks its source differently in its two loaders:

- `loadData` prefers a category id over the hot kind;
- `loadMoreDishes` prefers the hot kind, and otherwise asks for the current category's dishes even when no category is selected.

`CategoryPage.SourcesAgree` states exactly when the two agree.

The search page sends different keywords for different pages. Page 1
goes out with the trimmed keyword (`SearchPage.Page.PerformSearch`).
Later pages go out with the page's keyword as it stands
(`SearchPage.Page.LoadMoreResults`). So a search for "  egg" asks for
"egg" first and "  egg" on page 2. Each of these methods returns the
`SearchQuery` it sends, so the difference is visible in their contracts.

## Model

| member | source | states |
|---|---|---|
| Text.Trim | pages/search/search.js:64 | the trimmed keyword is no longer than the input, is empty exactly when the input is all white space, and otherwise starts and ends with a non-space character |
| Text.TrimIsInfix | pages/search/search.js:64 | the trimmed keyword is a contiguous piece of the input with only white space before and after it |
| Text.TrimIdempotent | pages/index/index.js:239-241 | trimming a trimmed keyword changes nothing |
| Text.NatToString | utils/util.js:13 | `toString` of a natural number: decimal digits only, a single digit exactly below 10, no leading zero otherwise |
| Text.DecimalRoundTrip | utils/util.js:13 | reading back the digits of `toString(n)` gives n |
| Text.SplitOn | utils/util.js:33 | `split` always yields at least one part |
| Text.SplitAfter | utils/util.js:33 | splitting at the first separator yields the text before it followed by the split of the rest |
| Util.FormatNumber | utils/util.js:12-15 | the result has at least two digits and denotes n; a single digit gets a '0' prefix, and a longer number is its own decimal text |
| Util.FormatTime | utils/util.js:1-10 | the formatted time has exactly one space, which splits it into the y/MM/dd date part and the HH:mm:ss clock part |
| Util.FormatTimeRoundTrip | utils/util.js:1-10 | the formatted time determines every component: parsing it back gives the same date and time |
| Util.FormatRelativeTime | utils/util.js:18-35 | the result is '' exactly for an empty input; below one minute it is '刚刚'; from 30 days on it is the date part of the formatted time |
| Util.RelativeTimeBuckets | utils/util.js:24-31 | in the minute, hour and day ranges the result is floor(diff / unit) followed by '分钟前', '小时前' or '天前', and that count lies within the bucket's bounds |
| Util.GetImageUrl | utils/util.js:38-63 | the cases are tried in order: empty path gives the default image; a path starting with 'http' is returned as is; then the banner placeholder, then the category placeholder; anything else becomes baseUrl + '/admin/file/preview/' + path |
| Util.ImageUrlCases | utils/util.js:44-60 | an 'http' path wins over a 'default-banner' in it, and a plain path is turned into a preview URL that keeps the path as its suffix |
| Request.MethodOf | utils/request.js:22 | the caller's method when given, GET otherwise |
| Request.DataOf | utils/request.js:23 | the caller's data when given, the empty object '{}' otherwise |
| Request.Wrap | utils/request.js:118-122 | the exported get/post/put/delete wrappers fix the method, add no headers, and send '{}' when the data is absent |
| Request.Header | utils/request.js:10-18 | the content type is JSON unless the caller overrides it; every caller header is kept; 'token' is present exactly when the stored token is non-empty or the caller sent one, and the stored token wins |
| Request.AutoLogin | utils/request.js:77-116 | the login resolves and hands out the exchange's token exactly when a login code was obtained and the exchange answered with status 200 and code 200 |
| Request.LoginRequestOf | utils/request.js:81-94 | the login endpoint is called only when a login code was obtained, with that code and the cached profile |
| Request.Send | utils/request.js:4-74 | one call never sends more requests or logins than the scripts provide, and sends at most one request more than it made logins; it sends something exactly when a transport answer is scripted, and the first request goes to the base URL plus the caller's URL with the caller's method, data and the headers built from the stored token |
| Request.SuccessResolves | utils/request.js:26-28 | status 200 with code 200 resolves with the envelope after one request and no login |
| Request.OtherCodeRejects | utils/request.js:46-55 | a code other than 200 and 401 rejects with the envelope, attempts no login, and shows the message only when there is one |
| Request.TransportFailureRejects | utils/request.js:57-71 | a non-200 status rejects with the response and the '网络请求失败' toast, a transport failure with the error and the '网络连接失败' toast; neither attempts a login |
| Request.ReauthFailureKeepsOriginal | utils/request.js:36-44 | code 401 with a failed login rejects with the original envelope, keeps the token, shows the message only when present and not '用户未登录', and records the login exchange (code and cached profile) that was posted whenever `wx.login` gave a code |
| Request.ReauthSuccessReplays | utils/request.js:33-35 | code 401 with a successful login settles exactly as `request` on the same options with the new token, with no toast of its own; the first request carries the old token and the replay the new one |
| Request.ReplaysSameOptions | utils/request.js:20-23 | every request sent during one call, replays included, has the caller's URL, method (default GET) and data (default '{}') |
| Request.ReplayHeaders | utils/request.js:10-35 | every request of a call carries the headers built from the token stored when it went out: the caller's stored token for the first, and for each replay the token handed out by the login just before it |
| Request.TokenProvenance | utils/request.js:99-101 | the token after a call is the one before it or a token handed out by a successful login exchange |
| Request.UnboundedReplay | utils/request.js:31-35 | with n consecutive 401 answers and n successful logins, the request goes out n + 1 times, resolves with the last login's token, and the last request carries that token |
| Lists.RemoveKey | pages/favorites/favorites.js:86 | `filter(item => item.id !== id)`: no entry with the key remains, the result is no longer than the input, and the order is kept |
| Lists.RemoveKeyCounts | pages/favorites/favorites.js:86 | every entry whose key differs keeps its number of occurrences |
| Lists.RemoveAbsentKey | pages/dish-detail/dish-detail.js:251 | filtering out a key no entry has changes nothing |
| Lists.RemoveKeepsUnique | pages/favorites/favorites.js:86 | filtering keeps keys unique |
| Lists.FindIndex | pages/dish-detail/dish-detail.js:112 | `findIndex`: the first position with the key, or -1 exactly when there is none |
| Lists.Take | pages/search/search.js:201-203 | the first n entries, or all of them when there are fewer |
| Dishes.DifficultyText | pages/favorites/favorites.js:132-135 | 1, 2 and 3 map to 简单, 中等 and 困难, and every other value to 未知, in both directions |
| Paging.Records | pages/index/index.js:120 | the answer's `records` when the request answered with data holding them, the empty list in every other case, a failure included |
| Paging.Total | pages/index/index.js:126 | the answer's `total` when the request answered with data holding it, 0 in every other case |
| Paging.Merge | pages/index/index.js:123 | page 1 replaces the list; any other page is appended after the existing entries |
| Paging.LoadedPagesAreConcat | pages/category/category.js:111 | loading pages 1..n in order leaves exactly their concatenation, with nothing lost or repeated |
| SearchPage.SavedHistory | pages/search/search.js:191-207 | the keyword comes first, followed by the other keywords in their old order; the length is one more than the number of other keywords, capped at 10, so only the tail is cut |
| SearchPage.SavedHistoryShape | pages/search/search.js:195-198 | the keyword occurs exactly once and the remaining entries are a subsequence of the old history |
| SearchPage.SaveTwice | pages/search/search.js:191-207 | saving the same keyword twice gives the same list as saving it once |
| SearchPage.SavedHistoryUnique | pages/search/search.js:195-198 | a history without duplicates stays without duplicates |
| SearchPage.Page.constructor | pages/search/search.js:6-20 | the page's initial data |
| SearchPage.Page.LoadSearchHistory | pages/search/search.js:185-188 | the page shows the stored history |
| SearchPage.Page.SaveSearchHistory | pages/search/search.js:191-207 | stored and shown history both become `SavedHistory` of the old stored history |
| SearchPage.Page.PerformSearch | pages/search/search.js:63-105 | a keyword that trims to nothing changes nothing and sends nothing; otherwise page 1 is asked for with the trimmed keyword, the answer's records are shown, `hasMore` iff a full page came back or the request failed, and the trimmed keyword is saved; a failure leaves the cleared list and the history as it was |
| SearchPage.Page.Search | pages/search/search.js:67-104 | page 1 is asked for with the given keyword and shows the answer's records, `hasMore` iff a full page came back or the request failed, and the keyword is saved; a failure keeps the total and the history |
| SearchPage.Page.OnReachBottom | pages/search/search.js:35-39 | load-more starts only when there is more, none is in flight and a search was made, and asks for the next page with the page's keyword |
| SearchPage.Page.LoadMoreResults | pages/search/search.js:107-124 | nothing while a load is in flight; otherwise the in-flight flag is set and the next page is asked for with the page's keyword as typed, not trimmed |
| SearchPage.Page.OnMoreResults | pages/search/search.js:113-141 | an answer is appended and the page advances, `hasMore` iff a full page; a failure leaves results and page as they were; the flag is cleared either way |
| SearchPage.Page.OnKeywordTap | pages/search/search.js:145-156 | the tapped keyword is set; if it trims to nothing nothing else changes and nothing is sent, otherwise page 1 is asked for with the trimmed keyword and the page state, total and histories end as after `PerformSearch` |
| SearchPage.Page.OnClearHistory | pages/search/search.js:159-174 | a confirmed dialog empties the shown and the stored history |
| DishDetailPage.RecordedView | pages/dish-detail/dish-detail.js:103-147 | the view history after a write never exceeds 100 entries, and revisiting keeps its length |
| DishDetailPage.RevisitInPlace | pages/dish-detail/dish-detail.js:126-132 | the first entry with the id stays at its index with the new view time and one more view; every other entry is untouched |
| DishDetailPage.FirstViewPrepends | pages/dish-detail/dish-detail.js:114-135 | a new dish goes in front with view count 1, followed by the old entries; the list grows by one unless it already held 100, when the last entry drops |
| DishDetailPage.RecordedViewUnique | pages/dish-detail/dish-detail.js:112-141 | unique ids stay unique |
| DishDetailPage.LocalToggle | pages/dish-detail/dish-detail.js:224-231 | the local rule flips the state; favoriting adds 1 to the count with '已添加收藏', unfavoriting takes 1 off but not below 0 with '已取消收藏' |
| DishDetailPage.ToggleTwice | pages/dish-detail/dish-detail.js:224-231 | two local toggles restore the state and, unless the count was clamped at 0, the count |
| DishDetailPage.Decide | pages/dish-detail/dish-detail.js:217-232 | the server's state, count and message when it answered; otherwise `LocalToggle`, which flips the state |
| DishDetailPage.ToggledFavorites | pages/dish-detail/dish-detail.js:235-256 | after favoriting the new entry is first and the rest is the filtered old list; after unfavoriting the result is exactly the filtered old list, with no entry for the id |
| DishDetailPage.FavoritedOnce | pages/dish-detail/dish-detail.js:251-252 | after favoriting exactly one entry has the id, at index 0, and the others keep their order |
| DishDetailPage.FavoriteThenUnfavorite | pages/dish-detail/dish-detail.js:251-255 | favoriting a dish not in the list and unfavoriting it gives the list back |
| DishDetailPage.Page.constructor | pages/dish-detail/dish-detail.js:21-27 | the page remembers its id and starts with no dish, no steps and the cursor at 0 |
| DishDetailPage.Page.LoadDishDetail | pages/dish-detail/dish-detail.js:157-191 | a successful load shows the dish and its steps; a failure changes nothing |
| DishDetailPage.Page.CheckFavoriteStatus | pages/dish-detail/dish-detail.js:150-154 | favorite exactly when the stored list has an entry with the page's id |
| DishDetailPage.Page.OnToggleFavorite | pages/dish-detail/dish-detail.js:194-278 | with no dish nothing happens; otherwise the state, count and message come from the server's answer or `LocalToggle`, and the stored list becomes `ToggledFavorites` |
| DishDetailPage.Page.RecordLocalViewHistory | pages/dish-detail/dish-detail.js:103-147 | with no dish the history is unchanged; otherwise it becomes `RecordedView` of the old one, and ids stay unique when the dish carries the page's id |
| DishDetailPage.Page.RecordValidView | pages/dish-detail/dish-detail.js:73-100 | runs once per visit and only with an id; a counted view adds one to the shown count, and the local history is written only when the server history call failed |
| DishDetailPage.Page.OnStartCooking | pages/dish-detail/dish-detail.js:281-294 | with no steps only a toast and no change; otherwise the steps show from the first one |
| DishDetailPage.Page.OnPrevStep | pages/dish-detail/dish-detail.js:297-303 | one step back, a no-op at 0, the cursor stays within the steps |
| DishDetailPage.Page.OnNextStep | pages/dish-detail/dish-detail.js:306-312 | one step on, a no-op at the last step, the cursor stays within [0, steps.length - 1] |
| DishDetailPage.Page.OnCloseSteps | pages/dish-detail/dish-detail.js:315-319 | the steps are hidden |
| FavoritesPage.RemovalMessage | pages/favorites/favorites.js:92 | the server's message when it answered, '已取消收藏' otherwise |
| FavoritesPage.RemovalShape | pages/favorites/favorites.js:85-86 | after removal no entry has the id, the others keep their order and multiplicity, and unique ids stay unique |
| FavoritesPage.RemoveTwice | pages/favorites/favorites.js:85-86 | removing the same id twice is the same as removing it once |
| FavoritesPage.Page.constructor | pages/favorites/favorites.js:5-8 | the page's initial data |
| FavoritesPage.Page.LoadFavorites | pages/favorites/favorites.js:26-45 | the page shows the stored list |
| FavoritesPage.Page.RemoveFavorite | pages/favorites/favorites.js:71-104 | the stored list loses every entry with the id, the page shows the same list, and the toast is `RemovalMessage` |
| FavoritesPage.Page.OnClearAll | pages/favorites/favorites.js:107-124 | with an empty list nothing happens; a confirmed dialog empties the page's and the stored list |
| IndexPage.HomeCategories | pages/index/index.js:85 | the leading categories, eight of them or all when fewer |
| IndexPage.SearchTarget | pages/index/index.js:237-244 | the typed keyword, or the remembered one when nothing is typed, opens the search exactly when it is not blank, and then with its `Trim` |
| IndexPage.SearchTargetStable | pages/index/index.js:241 | the keyword handed to the search page trims to itself there |
| IndexPage.Page.constructor | pages/index/index.js:8-28 | the page's initial data |
| IndexPage.Page.LoadAllDishes | pages/index/index.js:111-137 | an answer is merged by page number, `total` defaults to 0, `hasMore` iff a full page; a failure changes nothing |
| IndexPage.Page.LoadData | pages/index/index.js:69-108 | banners and the first eight categories are shown and the list restarts at page 1; if the home requests fail only the loading mark is cleared |
| IndexPage.Page.OnPullDownRefresh | pages/index/index.js:50-59 | back to page 1 with an empty list and `hasMore` set, then `LoadData`: with the home data, banners and categories are shown and page 1 replaces the list and total, a failed page leaving the list empty and the total as it was; without it, only the reset remains |
| IndexPage.Page.RefreshDishData | pages/index/index.js:206-227 | an answer replaces the list and total, keeping the page counter; a failure changes nothing |
| IndexPage.Page.OnShow | pages/index/index.js:34-39 | the list is refreshed only when it is not empty; an answer replaces list and total, a failure keeps both |
| IndexPage.Page.OnReachBottom | pages/index/index.js:62-66 | load-more starts only with more to come and none in flight |
| IndexPage.Page.LoadMoreDishes | pages/index/index.js:140-151 | nothing while a load is in flight; otherwise the flag is set and the page counter goes up by exactly 1 before the request |
| IndexPage.Page.OnMoreDishes | pages/index/index.js:152-162 | the answer is merged by the current page number (appended after page 1, replacing the list if a refresh reset the counter to 1 in between) with `hasMore` from its size and its total shown; a failure keeps list, total and `hasMore`, and the page counter is not rolled back; the flag is cleared either way |
| IndexPage.Page.OnSortChange | pages/index/index.js:165-177 | the active sort changes nothing; another sort restarts at page 1 with `hasMore` set and loads it, an answer setting list and total, a failure leaving the list empty and the total as it was |
| IndexPage.Page.OnSearchInput | pages/index/index.js:230-234 | the typed value is remembered |
| IndexPage.Page.OnSearchConfirm | pages/index/index.js:237-244 | the search page is opened with `SearchTarget`, a keyword already trimmed |
| CategoryPage.LoadDataSource | pages/category/category.js:69-78 | a truthy category id wins over the hot kind, which wins over the category list |
| CategoryPage.LoadMoreSource | pages/category/category.js:153-157 | the hot kind fetches hot dishes; otherwise the current category's dishes |
| CategoryPage.SourcesAgree | pages/category/category.js:69-78 | the first load and load-more ask for the same source exactly when one, and only one, of "category id set" and "hot kind" holds |
| CategoryPage.Page.constructor | pages/category/category.js:23-40 | a category argument selects that category; otherwise a 'hot' type selects the hot dishes under the title '热门菜品' |
| CategoryPage.Page.LoadCategories | pages/category/category.js:92-97 | the answer's list, or [] when its data is absent |
| CategoryPage.Page.LoadDishes | pages/category/category.js:100-138 | shared by `loadDishes` and `loadHotDishes`: merged by page number, `total` defaults to 0, `hasMore` iff a full page; a failure changes nothing |
| CategoryPage.Page.LoadData | pages/category/category.js:65-89 | loads from `LoadDataSource` and always clears the loading mark |
| CategoryPage.Page.OnPullDownRefresh | pages/category/category.js:46-55 | back to page 1 with an empty list and `hasMore` set, then `LoadData`: the category list when that is the source, otherwise page 1 of the dishes with its total, a failure keeping the total |
| CategoryPage.Page.OnReachBottom | pages/category/category.js:58-62 | load-more starts only with more to come and none in flight |
| CategoryPage.Page.LoadMoreDishes | pages/category/category.js:141-157 | nothing while a load is in flight; otherwise the flag is set, the page goes up by 1 before the request, and the source is `LoadMoreSource` |
| CategoryPage.Page.OnMoreDishes | pages/category/category.js:158-166 | the answer is merged by the current page number (appended after page 1, replacing the list if a refresh reset the counter to 1 in between) with `hasMore` from its size and its total shown; a failure keeps list, total and `hasMore`; the page is not rolled back after a failure; the flag is always cleared |
| CategoryPage.Page.OnCategoryTap | pages/category/category.js:170-185 | the category's id and name are set, the list is cleared, the page is reset to 1 with `hasMore` set, and page 1 is loaded |
| CategoryPage.Page.OnBackToCategories | pages/category/category.js:196-209 | id, name and dishes are cleared and the kind is 'category'; pagination is left untouched |

## Left out

- Platform calls (`wx.*`): storage, network, toasts, modals, navigation, login and titles. Storage is the `Storage.LocalStore` object. Awaited results are parameters. A toast is a returned value where the model keeps it.
- Timers and concurrency: `debounce` and `throttle` in utils/util.js; the 5-second view timer and its clearing; the debounced live search of `onSearchInput`; the interleaving of handlers. Each handler runs as one step, and each of the three load-more handlers as two.
- The clock and date parsing. `formatRelativeTime` receives the millisecond difference and the parsed date components. `viewTime` and `createTime` are opaque strings.
- Host string functions: `encodeURIComponent`/`decodeURIComponent` and `parseInt`. The category page receives the already parsed id.
- The contents of the base64 SVG placeholders in `getImageUrl` are not modelled. Each is held as the data-URL prefix followed by a short distinct stand-in for its body.
- pages/profile/profile.js, app.js and the api/*.js wrappers are not part of this model. `app.globalData.baseUrl` is a parameter.
- Dish ids are one integer type. The pages compare them with loose `==` in pages/dish-detail/dish-detail.js:112, 152 and 200 and loose `!=` in pages/dish-detail/dish-detail.js:251 and 255, but with strict `!==` in pages/favorites/favorites.js:86. A string id and a number id would match in the former but not in the latter. JavaScript coercion is not modelled.
- JavaScript falsy values inside records: an absent count, as in `(viewCount || 0)` or `collectCount || 0`, is held as 0. A dish answer whose `data` is null counts as a failed load.
- The ingredients list of the dish page is not modelled. It is only displayed.
- Navigation-only handlers are not modelled: `onDishTap`, `onCategoryTap` of the index page, `onBannerTap`, `onSearchTap`, the `goTo*` redirects, `getDifficultyColor` and the `getImageUrl` page wrappers.
- Util.FormatNumber: it takes a natural number. `toString` of a negative number or of a fraction is not modelled.
- Util.FormatRelativeTime: `diff` is an integer. A negative difference (a time in the future) falls in the '刚刚' branch, as in the code. A non-numeric difference, from an unparseable date, is not modelled.
- Request.Send: it does not model `reject(err)` payloads beyond their kind. The stored token after a call is returned rather than written into `Storage.LocalStore`.
- The server's side of the favorite toggle is only the `Toggle` record it returns. Whether a real server keeps its count consistent is outside the program.
