// The parts of the browser the page's scripts touch: string-keyed storage
// (localStorage and sessionStorage) and the class list of the root element.

module Browser {

  /** A value that may be missing; `None` stands for JavaScript's `null`. */
  datatype Option<T> = None | Some(value: T)

  /** A Web Storage area: keys and values are strings. */
  type Store = map<string, string>

  /** `storage.getItem(key)`: the stored string, or null when the key is absent. */
  function GetItem(store: Store, key: string): Option<string>
  {
    if key in store then Some(store[key]) else None
  }

  /** `storage.setItem(key, value)`. */
  function SetItem(store: Store, key: string, value: string): Store
  {
    store[key := value]
  }

  /** The browsing context: its two storage areas and the class list of
      `document.documentElement`. */
  class Window {
    var localStorage: Store
    var sessionStorage: Store
    var rootClasses: set<string>

    constructor (local: Store, session: Store, classes: set<string>)
      ensures localStorage == local && sessionStorage == session && rootClasses == classes
    {
      localStorage := local;
      sessionStorage := session;
      rootClasses := classes;
    }
  }
}
