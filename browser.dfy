/** The browser state the application touches: `localStorage` and the current location. */
module Browser {

  import opened Wrappers

  const AccessTokenKey := "accessToken"
  const RefreshTokenKey := "refreshToken"

  /** The entry page, where the login and registration forms live. */
  const EntryPath := "/"

  /** `localStorage.getItem(key)`: `null` (here `None`) for a key that is not stored. */
  function GetItem(storage: map<string, string>, key: string): (item: Option<string>)
    ensures item.Some? <==> key in storage
    ensures item.Some? ==> item.value == storage[key]
  {
    if key in storage then Some(storage[key]) else None
  }

  /** Truthiness of a stored item: present and not the empty string. */
  predicate TruthyItem(item: Option<string>)
    ensures TruthyItem(item) ==> item.Some? && |item.value| > 0
  {
    item.Some? && item.value != ""
  }

  /** The stored access token, when it is truthy. */
  predicate HasAccessToken(storage: map<string, string>) {
    TruthyItem(GetItem(storage, AccessTokenKey))
  }

  /**
   * The window: its `localStorage`, the pathname of the loaded document and every
   * assignment to `location.href` made while that document is loaded.
   */
  class Window {
    var storage: map<string, string>
    var pathname: string
    var navigations: seq<string>

    constructor (storage: map<string, string>, pathname: string)
      ensures this.storage == storage && this.pathname == pathname && navigations == []
    {
      this.storage := storage;
      this.pathname := pathname;
      navigations := [];
    }

    /** `localStorage.setItem(key, value)`. */
    method SetItem(key: string, value: string)
      modifies this
      ensures storage == old(storage)[key := value]
      ensures pathname == old(pathname) && navigations == old(navigations)
    {
      storage := storage[key := value];
    }

    /** `localStorage.removeItem(key)`: a missing key is no error. */
    method RemoveItem(key: string)
      modifies this
      ensures storage == old(storage) - {key}
      ensures pathname == old(pathname) && navigations == old(navigations)
    {
      storage := storage - {key};
    }

    /**
     * `window.location.href = path`: starts a navigation to `path`. The current
     * document stays loaded until the new one arrives, so `location.pathname` keeps
     * its old value; the navigation is only recorded.
     */
    method AssignLocation(path: string)
      modifies this
      ensures navigations == old(navigations) + [path]
      ensures pathname == old(pathname) && storage == old(storage)
    {
      navigations := navigations + [path];
    }
  }
}
