/** The browser's `localStorage`, as a map from key to stored string. */
module Storage {

  type Store = map<string, string>

  /** `!!localStorage.getItem(key)`: something is stored under `key` and it is
      a truthy (non-empty) string. */
  predicate HasItem(s: Store, key: string)
  {
    key in s && s[key] != ""
  }

  /** `localStorage.removeItem(key)`. */
  function RemoveItem(s: Store, key: string): Store
  {
    s - {key}
  }
}
