/** pages/favorites/favorites.js: the page showing the local favorites list. */
module FavoritesPage {
  import opened Wrappers
  import opened Lists
  import opened Dishes
  import opened Storage

  const RemovedMessage := "已取消收藏"

  /** The toast after a removal: the server's message when it answered, the fixed text otherwise. */
  function RemovalMessage(backendMessage: Option<string>): (m: string)
    ensures backendMessage.Some? ==> m == backendMessage.value
    ensures backendMessage.None? ==> m == RemovedMessage
  {
    backendMessage.GetOr(RemovedMessage)
  }

  /** The favorites page's data. */
  class Page {
    var favorites: seq<Favorite>
    var loading: bool

    constructor ()
      ensures favorites == [] && loading
    {
      favorites, loading := [], true;
    }

    /** `loadFavorites`: the page shows the stored list. */
    method LoadFavorites(store: LocalStore)
      modifies this
      ensures favorites == store.favorites && !loading
    {
      favorites, loading := store.favorites, false;
    }

    /**
     * `removeFavorite`: every entry with the id leaves the stored list, the
     * page shows the same list, and the toast is chosen by `RemovalMessage`.
     */
    method RemoveFavorite(store: LocalStore, dishId: Id, backendMessage: Option<string>) returns (toast: string)
      modifies store`favorites, this`favorites
      ensures store.favorites == RemoveKey(old(store.favorites), FavoriteId, dishId)
      ensures favorites == store.favorites
      ensures toast == RemovalMessage(backendMessage)
    {
      var list := RemoveKey(store.favorites, FavoriteId, dishId);
      store.favorites := list;
      favorites := list;
      toast := RemovalMessage(backendMessage);
    }

    /**
     * `onClearAll`: with an empty page list nothing happens (no dialog);
     * otherwise a confirmed dialog empties both lists.
     */
    method OnClearAll(store: LocalStore, confirmed: bool) returns (asked: bool)
      modifies store`favorites, this`favorites
      ensures asked <==> old(favorites) != []
      ensures !(asked && confirmed) ==> favorites == old(favorites) && store.favorites == old(store.favorites)
      ensures asked && confirmed ==> favorites == [] && store.favorites == []
    {
      if |favorites| == 0 {
        return false;
      }
      asked := true;
      if confirmed {
        store.favorites := [];
        favorites := [];
      }
    }
  }

  /** What a removal leaves behind: no entry with the id, the rest in their old order, unique ids kept unique. */
  lemma RemovalShape(favorites: seq<Favorite>, dishId: Id)
    ensures var r := RemoveKey(favorites, FavoriteId, dishId);
      && !HasKey(r, FavoriteId, dishId)
      && IsSubsequence(r, favorites)
      && (forall f: Favorite :: f.id != dishId ==> multiset(r)[f] == multiset(favorites)[f])
      && (UniqueKeys(favorites, FavoriteId) ==> UniqueKeys(r, FavoriteId))
  {
    RemoveKeyCounts(favorites, FavoriteId, dishId);
    if UniqueKeys(favorites, FavoriteId) {
      RemoveKeepsUnique(favorites, FavoriteId, dishId);
    }
  }

  /** Removing the same id twice is the same as removing it once. */
  lemma RemoveTwice(favorites: seq<Favorite>, dishId: Id)
    ensures RemoveKey(RemoveKey(favorites, FavoriteId, dishId), FavoriteId, dishId) == RemoveKey(favorites, FavoriteId, dishId)
  {
    RemoveAbsentKey(RemoveKey(favorites, FavoriteId, dishId), FavoriteId, dishId);
  }
}
