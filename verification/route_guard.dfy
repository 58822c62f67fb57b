/** The protected-route gate (`ProtectedRoute.tsx`): it reads the persistent store on every check. */
module RouteGuard {
  import opened Types

  /** What reading `localStorage` gives: its entries, or a thrown exception. */
  datatype Snapshot = Readable(entries: Storage) | Unreadable

  /** `!!(token && user)`: both keys hold non-empty text. */
  predicate SessionStored(m: Storage) {
    TokenKey in m && m[TokenKey] != "" && UserKey in m && m[UserKey] != ""
  }

  /** The guard's `hasAuth`: false when the store cannot be read. */
  predicate HasAuth(snap: Snapshot) {
    match snap
    case Readable(m) => SessionStored(m)
    case Unreadable => false
  }

  /** What the guard renders: its children, or a navigation. */
  datatype Route<T> = Children(content: T) | Navigate(to: string, replace: bool)

  function Guard<T>(snap: Snapshot, children: T): (r: Route<T>)
    ensures r.Children? <==>
              && snap.Readable?
              && TokenKey in snap.entries && snap.entries[TokenKey] != ""
              && UserKey in snap.entries && snap.entries[UserKey] != ""
    ensures r.Children? ==> r.content == children
    ensures r.Navigate? ==> r.to == "/login" && r.replace
  {
    if HasAuth(snap) then Children(children) else Navigate("/login", true)
  }

  /** The decision reads the `token` and `user` entries and nothing else in the store. */
  lemma GuardReadsOnlySession<T>(a: Storage, b: Storage, children: T)
    requires (TokenKey in a <==> TokenKey in b) && (TokenKey in a ==> a[TokenKey] == b[TokenKey])
    requires (UserKey in a <==> UserKey in b) && (UserKey in a ==> a[UserKey] == b[UserKey])
    ensures Guard(Readable(a), children) == Guard(Readable(b), children)
  {
  }
}
