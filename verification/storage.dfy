/**
 * The device's key-value store as the pages use it: the session token, the
 * cached profile, and the three local lists. A key never written reads as
 * '' or [] (the `|| []` of every reader).
 */
module Storage {
  import opened Wrappers
  import opened Dishes

  class LocalStore {
    var token: string
    var userInfo: Option<string>
    var searchHistory: seq<string>
    var viewHistory: seq<ViewEntry>
    var favorites: seq<Favorite>

    constructor ()
      ensures token == "" && userInfo == None
      ensures searchHistory == [] && viewHistory == [] && favorites == []
    {
      token, userInfo := "", None;
      searchHistory, viewHistory, favorites := [], [], [];
    }
  }
}
