/**
 * The session provider of the browser client (`AuthProvider`): the signed-in
 * identity, the `loading` flag that holds back every screen until the saved
 * session has been read, and the browser's `localStorage`, of which the
 * provider owns the single key `"user"`.
 *
 * The transitions are functions on a `State` value; the `AuthProvider` class
 * holds the same three fields and its methods are proved to perform exactly
 * those transitions.
 */
module Session {
  import opened Maybe
  import opened Api
  import Json

  /** The one storage key the provider reads, writes and removes. */
  const UserKey := "user"

  type Storage = map<string, string>

  datatype State = State(user: Option<Identity>, loading: bool, storage: Storage)

  /** Two storages that agree on every key except the session key. */
  ghost predicate SameOtherKeys(a: Storage, b: Storage)
  {
    forall k :: k != UserKey ==> (k in a <==> k in b) && (k in a ==> a[k] == b[k])
  }

  /** The provider as first rendered: no identity, still loading, over whatever the browser kept. */
  function Mount(storage: Storage): State
  {
    State(None, true, storage)
  }

  /** `localStorage.getItem("user")` is truthy: present and not the empty string. */
  predicate HasSavedUser(storage: Storage)
  {
    UserKey in storage && storage[UserKey] != ""
  }

  /**
   * The mount effect: read the saved record; install the identity it holds,
   * or drop the record if `JSON.parse` throws; then stop loading.
   */
  function Hydrated(s: State): (r: State)
    ensures !r.loading
    ensures SameOtherKeys(s.storage, r.storage)
    ensures !HasSavedUser(s.storage) ==> r.user == s.user && r.storage == s.storage
    ensures HasSavedUser(s.storage) ==>
      match Json.Parse(s.storage[UserKey])
      case Record(u) => r.user == Some(u) && r.storage == s.storage
      case Null => r.user == None && r.storage == s.storage
      case Malformed => r.user == s.user && UserKey !in r.storage
  {
    if HasSavedUser(s.storage) then
      match Json.Parse(s.storage[UserKey])
      case Record(u) => State(Some(u), false, s.storage)
      case Null => State(None, false, s.storage)
      case Malformed => State(s.user, false, s.storage - {UserKey})
    else
      State(s.user, false, s.storage)
  }

  /** `login(userData)`: replace the identity and save it under the session key. */
  function LoggedIn(s: State, u: Identity): (r: State)
    ensures r.user == Some(u) && r.loading == s.loading
    ensures UserKey in r.storage && Json.Parse(r.storage[UserKey]) == Json.Record(u)
    ensures SameOtherKeys(s.storage, r.storage)
  {
    Json.ParseSerialize(u);
    State(Some(u), s.loading, s.storage[UserKey := Json.Serialize(u)])
  }

  /** `logout()`: forget the identity and remove the saved record. */
  function LoggedOut(s: State): (r: State)
    ensures r.user == None && r.loading == s.loading
    ensures UserKey !in r.storage
    ensures SameOtherKeys(s.storage, r.storage)
  {
    State(None, s.loading, s.storage - {UserKey})
  }

  /** The provider renders its children, and so exposes `user`, only once loading is over. */
  predicate RendersChildren(s: State)
  {
    !s.loading
  }

  /** Reloading the page starts a fresh provider over the same storage and hydrates it. */
  function Reload(s: State): State
  {
    Hydrated(Mount(s.storage))
  }

  /** A fresh provider with nothing saved comes up signed out, and touches no storage. */
  lemma HydrateNothingSaved(storage: Storage)
    requires !HasSavedUser(storage)
    ensures Hydrated(Mount(storage)) == State(None, false, storage)
  {
  }

  /** A fresh provider over a well-formed record comes up signed in as exactly that identity. */
  lemma HydrateSavedIdentity(storage: Storage, u: Identity)
    requires UserKey in storage && storage[UserKey] == Json.Serialize(u)
    ensures Hydrated(Mount(storage)) == State(Some(u), false, storage)
  {
    Json.ParseSerialize(u);
    Json.SerializeNonEmpty(u);
  }

  /**
   * A fresh provider over a record that is not `null` and not the text of any
   * identity comes up signed out, and the record is gone.
   */
  lemma HydrateMalformed(storage: Storage)
    requires UserKey in storage && storage[UserKey] != "" && storage[UserKey] != "null"
    requires forall u :: storage[UserKey] != Json.Serialize(u)
    ensures Hydrated(Mount(storage)) == State(None, false, storage - {UserKey})
  {
    Json.MalformedIff(storage[UserKey]);
  }

  /**
   * A fresh provider over a saved text holding a raw control character (for
   * instance an unescaped line feed inside a name) comes up signed out, and
   * the text is gone.
   */
  lemma HydrateRawControl(storage: Storage, i: nat)
    requires UserKey in storage && i < |storage[UserKey]| && storage[UserKey][i] < ' '
    ensures Hydrated(Mount(storage)) == State(None, false, storage - {UserKey})
  {
    Json.RawControlMalformed(storage[UserKey], i);
  }

  /** After `login(u)`, a page reload signs the same identity back in. */
  lemma LoginSurvivesReload(s: State, u: Identity)
    ensures Reload(LoggedIn(s, u)).user == Some(u)
    ensures Reload(LoggedIn(s, u)).storage == LoggedIn(s, u).storage
  {
    HydrateSavedIdentity(LoggedIn(s, u).storage, u);
  }

  /** After `logout()`, a page reload stays signed out. */
  lemma LogoutSurvivesReload(s: State)
    ensures Reload(LoggedOut(s)) == State(None, false, LoggedOut(s).storage)
  {
  }

  /** A second `logout()` changes nothing. */
  lemma LogoutIdempotent(s: State)
    ensures LoggedOut(LoggedOut(s)) == LoggedOut(s)
  {
  }

  /** The latest `login` wins: logging in twice is logging in as the second identity. */
  lemma LoginReplaces(s: State, u: Identity, v: Identity)
    ensures LoggedIn(LoggedIn(s, u), v) == LoggedIn(s, v)
  {
  }

  /** The view the provider renders: a spinner while loading, else its children with the context. */
  datatype View = Spinner | Children(user: Option<Identity>)

  class AuthProvider {
    var user: Option<Identity>
    var loading: bool
    /** The browser's `localStorage`, shared with every other script of the page. */
    var storage: Storage

    function Current(): State
      reads this
    {
      State(user, loading, storage)
    }

    /** First render: `useState(null)`, `useState(true)`. */
    constructor (saved: Storage)
      ensures Current() == Mount(saved)
    {
      user, loading, storage := None, true, saved;
    }

    /** The mount effect (runs once, after the first render). */
    method HydrateEffect()
      modifies this
      ensures Current() == Hydrated(old(Current()))
    {
      if UserKey in storage && storage[UserKey] != "" {
        var parsed := Json.Parse(storage[UserKey]);
        match parsed {
          case Record(u) =>
            user := Some(u);
          case Null =>
            user := None;
          case Malformed =>
            storage := storage - {UserKey};
        }
      }
      loading := false;
    }

    method Login(u: Identity)
      modifies this
      ensures Current() == LoggedIn(old(Current()), u)
    {
      user := Some(u);
      storage := storage[UserKey := Json.Serialize(u)];
    }

    method Logout()
      modifies this
      ensures Current() == LoggedOut(old(Current()))
    {
      user := None;
      storage := storage - {UserKey};
    }

    /** What the provider renders; the context `{user, login, logout}` exists only in `Children`. */
    method Render() returns (view: View)
      ensures view.Children? <==> RendersChildren(Current())
      ensures view == Spinner <==> loading
      ensures view.Children? ==> view.user == user
    {
      if loading {
        view := Spinner;
      } else {
        view := Children(user);
      }
    }
  }
}
