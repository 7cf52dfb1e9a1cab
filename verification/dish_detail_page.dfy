/**
 * pages/dish-detail/dish-detail.js: the local view history, the local
 * favorites toggle, the once-per-visit view record and the cooking-step cursor.
 */
module DishDetailPage {
  import opened Wrappers
  import opened Lists
  import opened Dishes
  import opened Storage

  const MaxViewHistory: nat := 100

  /** The entry written for a dish viewed for the first time. */
  function NewViewEntry(d: Dish, viewTime: string): ViewEntry {
    ViewEntry(d.id, d.name, d.image, d.description, d.difficulty, d.cookingTime, d.categoryName, viewTime, 1)
  }

  /** An existing entry seen again: new view time, one more view, everything else kept. */
  function Revisited(e: ViewEntry, viewTime: string): ViewEntry {
    e.(viewTime := viewTime, viewCount := e.viewCount + 1)
  }

  /**
   * `recordLocalViewHistory` for a loaded dish: the first entry with the
   * page's dish id is revisited where it stands, or a new entry goes to the
   * front; then the list is cut to 100 entries.
   */
  function RecordedView(history: seq<ViewEntry>, dishId: Id, d: Dish, viewTime: string): (r: seq<ViewEntry>)
    ensures |r| <= MaxViewHistory
    ensures HasKey(history, ViewId, dishId) ==> |r| == |Take(history, MaxViewHistory)|
  {
    var i := FindIndex(history, ViewId, dishId);
    var updated := if i >= 0 then history[i := Revisited(history[i], viewTime)] else [NewViewEntry(d, viewTime)] + history;
    Take(updated, MaxViewHistory)
  }

  /**
   * Viewing a dish already in the history changes only its first entry, at
   * the same index: new view time and one more view.
   */
  lemma RevisitInPlace(history: seq<ViewEntry>, dishId: Id, d: Dish, viewTime: string, i: nat)
    requires i < |history| && i < MaxViewHistory && history[i].id == dishId
    requires forall j :: 0 <= j < i ==> history[j].id != dishId
    ensures var r := RecordedView(history, dishId, d, viewTime);
      && i < |r|
      && r[i] == history[i].(viewTime := viewTime, viewCount := history[i].viewCount + 1)
      && forall j :: 0 <= j < |r| && j != i ==> r[j] == history[j]
  {
    var k := FindIndex(history, ViewId, dishId);
    assert HasKey(history, ViewId, dishId) by { assert ViewId(history[i]) == dishId; }
    assert k == i;
  }

  /** Viewing a dish not in the history puts a one-view entry in front of the older entries, dropping the 101st. */
  lemma FirstViewPrepends(history: seq<ViewEntry>, dishId: Id, d: Dish, viewTime: string)
    requires !HasKey(history, ViewId, dishId)
    ensures var r := RecordedView(history, dishId, d, viewTime);
      && |r| == (if |history| < MaxViewHistory then |history| + 1 else MaxViewHistory)
      && r[0] == NewViewEntry(d, viewTime) && r[0].viewCount == 1
      && r[1..] == history[..|r| - 1]
  {
    var r := RecordedView(history, dishId, d, viewTime);
    assert r == Take([NewViewEntry(d, viewTime)] + history, MaxViewHistory);
    assert r[1..] == ([NewViewEntry(d, viewTime)] + history)[1..][..|r| - 1];
  }

  /** When the new entry carries the page's dish id, recording a view keeps ids unique. */
  lemma RecordedViewUnique(history: seq<ViewEntry>, d: Dish, viewTime: string)
    requires UniqueKeys(history, ViewId)
    ensures UniqueKeys(RecordedView(history, d.id, d, viewTime), ViewId)
  {
    var i := FindIndex(history, ViewId, d.id);
    var updated := if i >= 0 then history[i := Revisited(history[i], viewTime)] else [NewViewEntry(d, viewTime)] + history;
    forall a, b | 0 <= a < b < |updated| ensures ViewId(updated[a]) != ViewId(updated[b]) {
      if i < 0 {
        assert updated[b] == history[b - 1];
        if a > 0 {
          assert updated[a] == history[a - 1];
        }
      }
    }
    var r := RecordedView(history, d.id, d, viewTime);
    assert r == updated[..|r|];
  }

  /** The favorite state, collect count and toast a toggle settles on; also the shape of the server's answer. */
  datatype Toggle = Toggle(isFavorite: bool, collectCount: int, message: string)

  /** The local rule used when the server gave no answer: flip the state, count up, or down but not below 0. */
  function LocalToggle(wasFavorite: bool, collectCount: int): (t: Toggle)
    ensures t.isFavorite == !wasFavorite
    ensures t.isFavorite ==> t.collectCount == collectCount + 1 && t.message == "已添加收藏"
    ensures !t.isFavorite ==> t.collectCount == (if collectCount >= 1 then collectCount - 1 else 0) && t.message == "已取消收藏"
  {
    if !wasFavorite then Toggle(true, collectCount + 1, "已添加收藏")
    else Toggle(false, if 0 > collectCount - 1 then 0 else collectCount - 1, "已取消收藏")
  }

  /** Toggling twice locally restores the state and, unless the count had been clamped at 0, the count. */
  lemma ToggleTwice(wasFavorite: bool, collectCount: int)
    requires collectCount >= 0 && (wasFavorite ==> collectCount >= 1)
    ensures var once := LocalToggle(wasFavorite, collectCount);
      var twice := LocalToggle(once.isFavorite, once.collectCount);
      once.collectCount >= 0 && twice.isFavorite == wasFavorite && twice.collectCount == collectCount
  {
  }

  /** The server's answer when there is one, the local rule otherwise. */
  function Decide(backend: Option<Toggle>, wasFavorite: bool, collectCount: int): (t: Toggle)
    ensures backend.Some? ==> t == backend.value
    ensures backend.None? ==> t == LocalToggle(wasFavorite, collectCount) && t.isFavorite == !wasFavorite
  {
    if backend.Some? then backend.value else LocalToggle(wasFavorite, collectCount)
  }

  /** The favorites entry written for the page's dish. */
  function FavoriteItem(d: Dish, collectCount: int, createTime: string): Favorite {
    Favorite(d.id, d.name, d.image, d.description, d.difficulty, d.cookingTime, d.categoryName,
             d.viewCount, collectCount, createTime)
  }

  /** The local favorites after a toggle: every entry with the id is dropped, and the new entry goes in front when favorited. */
  function ToggledFavorites(favorites: seq<Favorite>, dishId: Id, nowFavorite: bool, item: Favorite): (r: seq<Favorite>)
    ensures !nowFavorite ==> r == RemoveKey(favorites, FavoriteId, dishId) && !HasKey(r, FavoriteId, dishId)
    ensures nowFavorite ==> r != [] && r[0] == item && r[1..] == RemoveKey(favorites, FavoriteId, dishId)
  {
    var rest := RemoveKey(favorites, FavoriteId, dishId);
    if nowFavorite then [item] + rest else rest
  }

  /** After favoriting, the dish is in the list exactly once, in front; the other entries keep their order. */
  lemma FavoritedOnce(favorites: seq<Favorite>, item: Favorite)
    ensures var r := ToggledFavorites(favorites, item.id, true, item);
      && r[0] == item
      && (forall j :: 1 <= j < |r| ==> r[j].id != item.id)
      && IsSubsequence(r[1..], favorites)
  {
    var r := ToggledFavorites(favorites, item.id, true, item);
    forall j | 1 <= j < |r| ensures r[j].id != item.id {
      assert FavoriteId(r[1..][j - 1]) != item.id;
    }
  }

  /** Favoriting a dish that was not in the list and then unfavoriting it gives the list back. */
  lemma FavoriteThenUnfavorite(favorites: seq<Favorite>, item: Favorite, later: Favorite)
    requires !HasKey(favorites, FavoriteId, item.id)
    ensures ToggledFavorites(ToggledFavorites(favorites, item.id, true, item), item.id, false, later) == favorites
  {
    RemoveAbsentKey(favorites, FavoriteId, item.id);
    var r := ToggledFavorites(favorites, item.id, true, item);
    assert r == [item] + favorites;
    assert RemoveKey(r, FavoriteId, item.id) == RemoveKey(favorites, FavoriteId, item.id);
  }

  datatype Step = Step(description: string, image: string)

  /** What the three detail requests delivered: the dish and its steps. */
  datatype Detail = Detail(dish: Dish, steps: seq<Step>)

  /** The dish-detail page's data. */
  class Page {
    var dishId: Option<Id>
    var dish: Option<Dish>
    var steps: seq<Step>
    var isFavorite: bool
    var currentStepIndex: int
    var showSteps: bool
    var hasRecordedView: bool

    /** A dish is only loaded for the page's id, and the step cursor stays on a step (or at 0 when there are none). */
    ghost predicate Valid()
      reads this
    {
      && (dish.Some? ==> dishId.Some?)
      && (dish.None? ==> steps == [] && currentStepIndex == 0)
      && 0 <= currentStepIndex
      && (currentStepIndex < |steps| || currentStepIndex == 0)
    }

    /** `onLoad`: the page remembers the id it was opened with. */
    constructor (id: Option<Id>)
      ensures Valid()
      ensures dishId == id && dish == None && steps == [] && !isFavorite
      ensures currentStepIndex == 0 && !showSteps && !hasRecordedView
    {
      dishId, dish, steps := id, None, [];
      isFavorite, currentStepIndex, showSteps, hasRecordedView := false, 0, false, false;
    }

    /** `loadDishDetail`: the dish and its steps once all three requests answered; nothing on failure. */
    method LoadDishDetail(detail: Option<Detail>)
      requires Valid() && dishId.Some? && dish.None?
      modifies this`dish, this`steps
      ensures Valid()
      ensures detail.None? ==> dish == old(dish) && steps == old(steps)
      ensures detail.Some? ==> dish == Some(detail.value.dish) && steps == detail.value.steps
    {
      if detail.Some? {
        dish, steps := Some(detail.value.dish), detail.value.steps;
      }
    }

    /** `checkFavoriteStatus`: favorite exactly when the stored list has an entry with the page's id. */
    method CheckFavoriteStatus(store: LocalStore)
      modifies this`isFavorite
      ensures isFavorite == (dishId.Some? && HasKey(store.favorites, FavoriteId, dishId.value))
    {
      isFavorite := dishId.Some? && FindIndex(store.favorites, FavoriteId, dishId.value) >= 0;
    }

    /**
     * `onToggleFavorite`: without a dish nothing happens. Otherwise the
     * previous state is read from the stored list, the new state, count and
     * message come from the server's answer or the local rule, and the
     * stored list and the page follow that state.
     */
    method OnToggleFavorite(store: LocalStore, backend: Option<Toggle>, createTime: string) returns (toast: Option<string>)
      requires Valid()
      modifies store`favorites, this`dish, this`isFavorite
      ensures Valid()
      ensures old(dish).None? ==> toast.None? && unchanged(this) && unchanged(store)
      ensures old(dish).Some? ==>
        var id := dishId.value;
        var t := Decide(backend, HasKey(old(store.favorites), FavoriteId, id), old(dish).value.collectCount);
        && isFavorite == t.isFavorite
        && dish == Some(old(dish).value.(collectCount := t.collectCount))
        && store.favorites == ToggledFavorites(old(store.favorites), id, t.isFavorite, FavoriteItem(old(dish).value, t.collectCount, createTime))
        && toast == Some(t.message)
    {
      if dish.None? {
        return None;
      }
      var id := dishId.value;
      var favorites := store.favorites;
      var wasFavorite := FindIndex(favorites, FavoriteId, id) >= 0;
      var t := Decide(backend, wasFavorite, dish.value.collectCount);
      if t.isFavorite {
        var item := FavoriteItem(dish.value, t.collectCount, createTime);
        favorites := RemoveKey(favorites, FavoriteId, id);
        favorites := [item] + favorites;
      } else {
        favorites := RemoveKey(favorites, FavoriteId, id);
      }
      store.favorites := favorites;
      isFavorite := t.isFavorite;
      dish := Some(dish.value.(collectCount := t.collectCount));
      toast := Some(t.message);
    }

    /** `recordLocalViewHistory`: without a dish the stored history is left alone. */
    method RecordLocalViewHistory(store: LocalStore, viewTime: string)
      requires Valid()
      modifies store`viewHistory
      ensures dish.None? ==> store.viewHistory == old(store.viewHistory)
      ensures dish.Some? ==> store.viewHistory == RecordedView(old(store.viewHistory), dishId.value, dish.value, viewTime)
      ensures dish.Some? && dish.value.id == dishId.value && UniqueKeys(old(store.viewHistory), ViewId) ==>
        UniqueKeys(store.viewHistory, ViewId)
    {
      if dish.None? {
        return;
      }
      if dish.value.id == dishId.value && UniqueKeys(store.viewHistory, ViewId) {
        RecordedViewUnique(store.viewHistory, dish.value, viewTime);
      }
      var history := store.viewHistory;
      var i := FindIndex(history, ViewId, dishId.value);
      if i >= 0 {
        history := history[i := Revisited(history[i], viewTime)];
      } else {
        history := [NewViewEntry(dish.value, viewTime)] + history;
      }
      if |history| > MaxViewHistory {
        history := history[..MaxViewHistory];
      }
      store.viewHistory := history;
    }

    /**
     * `recordValidView`: runs at most once per visit and only with an id.
     * When the view-count request succeeds the shown count goes up by one,
     * and if the history request then fails the view goes to the local
     * history. A failed view-count request records nothing more.
     */
    method RecordValidView(store: LocalStore, counted: bool, historyStored: bool, viewTime: string)
      requires Valid()
      modifies this`hasRecordedView, this`dish, store`viewHistory
      ensures Valid()
      ensures old(hasRecordedView) || dishId.None? ==> unchanged(this) && unchanged(store)
      ensures !old(hasRecordedView) && dishId.Some? ==>
        && hasRecordedView
        && dish == (if counted && old(dish).Some? then Some(old(dish).value.(viewCount := old(dish).value.viewCount + 1)) else old(dish))
        && store.viewHistory == (if counted && !historyStored && dish.Some?
                                 then RecordedView(old(store.viewHistory), dishId.value, dish.value, viewTime)
                                 else old(store.viewHistory))
    {
      if hasRecordedView || dishId.None? {
        return;
      }
      hasRecordedView := true;
      if !counted {
        return;
      }
      if dish.Some? {
        dish := Some(dish.value.(viewCount := dish.value.viewCount + 1));
      }
      if !historyStored {
        RecordLocalViewHistory(store, viewTime);
      }
    }

    /** `onStartCooking`: with no steps only a toast; otherwise the steps open at the first one. */
    method OnStartCooking() returns (noStepsToast: bool)
      requires Valid()
      modifies this`showSteps, this`currentStepIndex
      ensures Valid()
      ensures noStepsToast <==> steps == []
      ensures steps == [] ==> showSteps == old(showSteps) && currentStepIndex == old(currentStepIndex)
      ensures steps != [] ==> showSteps && currentStepIndex == 0
    {
      if |steps| == 0 {
        return true;
      }
      showSteps, currentStepIndex := true, 0;
      noStepsToast := false;
    }

    /** `onPrevStep`: one step back, nothing at the first step. */
    method OnPrevStep()
      requires Valid()
      modifies this`currentStepIndex
      ensures Valid()
      ensures currentStepIndex == if old(currentStepIndex) > 0 then old(currentStepIndex) - 1 else old(currentStepIndex)
    {
      if currentStepIndex > 0 {
        currentStepIndex := currentStepIndex - 1;
      }
    }

    /** `onNextStep`: one step on, nothing at the last step (or when there are no steps). */
    method OnNextStep()
      requires Valid()
      modifies this`currentStepIndex
      ensures Valid()
      ensures currentStepIndex == if old(currentStepIndex) < |steps| - 1 then old(currentStepIndex) + 1 else old(currentStepIndex)
      ensures steps != [] ==> 0 <= currentStepIndex <= |steps| - 1
    {
      if currentStepIndex < |steps| - 1 {
        currentStepIndex := currentStepIndex + 1;
      }
    }

    /** `onCloseSteps`: hides the steps and keeps the cursor where it is. */
    method OnCloseSteps()
      requires Valid()
      modifies this`showSteps
      ensures Valid() && !showSteps
    {
      showSteps := false;
    }
  }
}
