/**
 * The user accounts of the server: a table of users keyed by id, whose
 * passwords are kept only as the encoder's hashes. Registration hashes the
 * password and defaults the role; an update overwrites the name, the e-mail
 * and the role, and re-hashes the password only when a new one is given.
 */
module UserService {
  import opened Maybe
  import opened Entities
  import Store

  /** The role a new account gets when it names none. */
  const DefaultRole := "USER"

  /** What the encoder throws when handed a `null` password. */
  const NullPassword := "rawPassword cannot be null"

  /** What `findByUsername` throws when more than one row carries the name. */
  const NotUnique := "query did not return a unique result"

  /** `findByUsername`: the ids of the rows whose username equals `name` (`null` matches `null`). */
  function Holders(users: map<int, User>, name: Option<string>): set<int>
  {
    set id | id in users && users[id].username == name
  }

  /** The encoder accepts every password against its own hash. */
  ghost predicate Sound(encoder: Encoder)
  {
    forall raw :: encoder.matches(raw, encoder.encode(raw))
  }

  /** Each row sits under its own id and has a password. */
  ghost predicate Keyed(users: map<int, User>)
  {
    forall id :: id in users ==> users[id].id == id && users[id].password.Some?
  }

  /** Every stored password is the hash of the secret recorded for that row. */
  ghost predicate Hashed(users: map<int, User>, secrets: map<int, string>, encoder: Encoder)
  {
    users.Keys == secrets.Keys
    && forall id :: id in users ==> users[id].password == Some(encoder.encode(secrets[id]))
  }

  /** The role stored for a new account: the one asked for, unless it is `null` or empty. */
  function RoleOrDefault(role: Option<string>): (r: string)
    ensures r != ""
    ensures Present(role) <==> Some(r) == role
  {
    if Present(role) then role.value else DefaultRole
  }

  /**
   * `authenticateUser`: look the name up (more than one row is an error),
   * then check the password against the stored hash (a `null` password is
   * an error of the encoder, but only once a row was found).
   */
  ghost function Authentication(users: map<int, User>, encoder: Encoder, name: Option<string>, raw: Option<string>): (r: Thrown<Option<User>>)
    requires Keyed(users)
    ensures r.Threw? <==> |Holders(users, name)| > 1 || (|Holders(users, name)| == 1 && raw.None?)
    ensures Holders(users, name) == {} ==> r == Returned(None)
    ensures r.Returned? && r.value.Some? ==>
      var u := r.value.value;
      u.id in users && users[u.id] == u && u.username == name && Holders(users, name) == {u.id}
      && raw.Some? && encoder.matches(raw.value, u.password.value)
    ensures forall id :: (Holders(users, name) == {id} && raw.Some? && encoder.matches(raw.value, users[id].password.value)
      ==> r == Returned(Some(users[id])))
  {
    var ids := Holders(users, name);
    if |ids| > 1 then Threw(NotUnique)
    else if ids == {} then Returned(None)
    else if raw.None? then Threw(NullPassword)
    else
      var id := Store.Pick(ids);
      assert ids == {id} by {
        forall other | other in ids ensures other == id {
          Store.SingletonMember(ids, other, id);
        }
      }
      if encoder.matches(raw.value, users[id].password.value) then Returned(Some(users[id])) else Returned(None)
  }

  /** A user whose name is unique logs in with the password they last set. */
  lemma SecretAuthenticates(users: map<int, User>, secrets: map<int, string>, encoder: Encoder, id: int)
    requires Keyed(users) && Hashed(users, secrets, encoder) && Sound(encoder)
    requires id in users && Holders(users, users[id].username) == {id}
    ensures Authentication(users, encoder, users[id].username, Some(secrets[id])) == Returned(Some(users[id]))
  {
    assert encoder.matches(secrets[id], encoder.encode(secrets[id]));
  }

  class UserService {
    const encoder: Encoder
    /** The user table. */
    var users: map<int, User>
    /** The next value of the identity column. */
    var nextId: int
    /** The raw password each stored hash was computed from. */
    ghost var secrets: map<int, string>

    /** Each row sits under its own id, below the identity counter (which starts at 1), with a hashed password. */
    ghost predicate Valid()
      reads this
    {
      0 < nextId
      && (forall id :: id in users ==> users[id].id == id && id < nextId)
      && Hashed(users, secrets, encoder)
    }

    constructor (encoder: Encoder)
      ensures Valid()
      ensures this.encoder == encoder && users == map[] && nextId == 1
    {
      this.encoder := encoder;
      users, nextId := map[], 1;
      secrets := map[];
    }

    /** `authenticateUser`: read-only. */
    method AuthenticateUser(name: Option<string>, raw: Option<string>) returns (r: Thrown<Option<User>>)
      requires Valid()
      ensures r == Authentication(users, encoder, name, raw)
    {
      var ids := Holders(users, name);
      if |ids| > 1 {
        return Threw(NotUnique);
      }
      if ids == {} {
        return Returned(None);
      }
      ghost var some := Store.Element(ids);
      var id :| id in ids;
      Store.SingletonMember(ids, id, Store.Pick(ids));
      match raw {
        case None =>
          r := Threw(NullPassword);
        case Some(password) =>
          var matches := encoder.matches(password, users[id].password.value);
          r := if matches then Returned(Some(users[id])) else Returned(None);
      }
    }

    /**
     * `createUser`: hash the password (a `null` one throws and nothing is
     * stored), default the role, and store the row under a new id. The id
     * in the request is not used.
     */
    method CreateUser(u: User) returns (r: Thrown<User>)
      requires Valid()
      modifies this`users, this`nextId, this`secrets
      ensures Valid()
      ensures u.password.None? ==>
        r == Threw(NullPassword) && users == old(users) && nextId == old(nextId) && secrets == old(secrets)
      ensures u.password.Some? ==>
        var saved := User(old(nextId), u.username, u.email, Some(encoder.encode(u.password.value)), Some(RoleOrDefault(u.role)));
        r == Returned(saved) && old(nextId) !in old(users)
        && users == old(users)[old(nextId) := saved] && nextId == old(nextId) + 1
        && secrets == old(secrets)[old(nextId) := u.password.value]
    {
      if u.password.None? {
        return Threw(NullPassword);
      }
      var saved := User(nextId, u.username, u.email, Some(encoder.encode(u.password.value)), Some(RoleOrDefault(u.role)));
      users := users[nextId := saved];
      secrets := secrets[nextId := u.password.value];
      nextId := nextId + 1;
      r := Returned(saved);
    }

    /** `getAllUsers`. */
    method GetAllUsers() returns (all: seq<User>)
      ensures all == Store.FindAll(users)
    {
      all := Store.FindAll(users);
    }

    /** `getUserById`. */
    method GetUserById(id: int) returns (r: Option<User>)
      ensures r == Store.FindById(users, id)
    {
      r := Store.FindById(users, id);
    }

    /**
     * `updateUser`: an absent id changes nothing; otherwise the row takes the
     * request's username, e-mail and role as they are (even `null`), keeps its
     * id, and keeps its hash unless the request carries a non-empty password.
     */
    method UpdateUser(id: int, u: User) returns (r: Option<User>)
      requires Valid()
      modifies this`users, this`secrets
      ensures Valid()
      ensures id !in old(users) ==> r == None && users == old(users) && secrets == old(secrets)
      ensures id in old(users) ==>
        var saved := old(users)[id].(username := u.username, email := u.email, role := u.role,
          password := if Present(u.password) then Some(encoder.encode(u.password.value)) else old(users)[id].password);
        r == Some(saved) && users == old(users)[id := saved]
        && secrets == if Present(u.password) then old(secrets)[id := u.password.value] else old(secrets)
    {
      if id !in users {
        return None;
      }
      var existing := users[id];
      existing := existing.(username := u.username, email := u.email, role := u.role);
      if Present(u.password) {
        existing := existing.(password := Some(encoder.encode(u.password.value)));
        secrets := secrets[id := u.password.value];
      }
      users := users[id := existing];
      r := Some(existing);
    }

    /** `deleteUser`: true exactly when the row existed, and then it is gone. */
    method DeleteUser(id: int) returns (deleted: bool)
      requires Valid()
      modifies this`users, this`secrets
      ensures Valid()
      ensures deleted <==> id in old(users)
      ensures users == old(users) - {id} && secrets == old(secrets) - {id}
    {
      deleted := id in users;
      if deleted {
        users := users - {id};
        secrets := secrets - {id};
      }
    }

    /** `getUserCount`: the number of rows. */
    method GetUserCount() returns (n: int)
      ensures n == |users|
    {
      n := |users|;
    }
  }

  /** Registering an account and then logging in with the same name and password returns the stored account. */
  method RegisterThenLogin(encoder: Encoder, u: User) returns (registered: Thrown<User>, login: Thrown<Option<User>>)
    requires Sound(encoder) && u.password.Some?
    ensures registered.Returned? && registered.value.id == 1
    ensures registered.value.username == u.username && registered.value.email == u.email
    ensures login == Returned(Some(registered.value))
  {
    var service := new UserService(encoder);
    registered := service.CreateUser(u);
    assert Holders(service.users, u.username) == {1};
    SecretAuthenticates(service.users, service.secrets, encoder, 1);
    login := service.AuthenticateUser(u.username, u.password);
  }

  /**
   * An update that leaves the password field empty keeps the old password:
   * the account logs in under its new name with the password it registered with.
   */
  method RenameKeepsPassword(encoder: Encoder, u: User, changes: User) returns (login: Thrown<Option<User>>)
    requires Sound(encoder) && u.password.Some? && !Present(changes.password)
    ensures login.Returned? && login.value.Some?
    ensures login.value.value.username == changes.username && login.value.value.role == changes.role
  {
    var service := new UserService(encoder);
    var registered := service.CreateUser(u);
    var updated := service.UpdateUser(1, changes);
    assert Holders(service.users, changes.username) == {1};
    SecretAuthenticates(service.users, service.secrets, encoder, 1);
    login := service.AuthenticateUser(changes.username, u.password);
  }
}
