/**
 * The HTTP face of the user service: login answers 200 with the account or
 * 401; reads, updates and deletes answer 404 for an id that is not in the
 * table; the dashboard statistics count both tables.
 */
module UserController {
  import opened Maybe
  import opened Entities
  import Store
  import UserService
  import PostService

  const InvalidCredentials := "Invalid username or password"
  const UserDeleted := "User deleted successfully."

  /** The answer to a login attempt, given what authentication returned (an exception is a 500). */
  function LoginResponse(r: Thrown<Option<User>>): (resp: Response)
    ensures resp.status == OK <==> r.Returned? && r.value.Some?
    ensures resp.status == OK ==> resp.body == UserJson(r.value.value)
    ensures resp.status == UNAUTHORIZED <==> r == Returned(None)
    ensures r == Returned(None) ==> resp.body == Message(InvalidCredentials)
    ensures r.Threw? ==> resp == Failure
  {
    match r
    case Returned(Some(u)) => Response(OK, UserJson(u))
    case Returned(None) => Response(UNAUTHORIZED, Message(InvalidCredentials))
    case Threw(_) => Failure
  }

  /** `ResponseEntity.ok(user)` when present, else `notFound()`. */
  function UserOrNotFound(r: Option<User>): (resp: Response)
    ensures resp.status == OK <==> r.Some?
    ensures r.Some? ==> resp.body == UserJson(r.value)
    ensures r.None? ==> resp == NotFound
  {
    match r
    case Some(u) => Response(OK, UserJson(u))
    case None => NotFound
  }

  class UserController {
    const users: UserService.UserService
    /** The post table, whose `count()` the statistics read directly. */
    const posts: PostService.PostService

    constructor (users: UserService.UserService, posts: PostService.PostService)
      ensures this.users == users && this.posts == posts
    {
      this.users := users;
      this.posts := posts;
    }

    /**
     * `POST /api/users/login`: 200 with the account exactly when one row
     * carries the name and the password matches its hash; 401 when no row
     * carries it or the password does not match.
     */
    method Login(request: User) returns (resp: Response)
      requires users.Valid()
      ensures resp == LoginResponse(UserService.Authentication(users.users, users.encoder, request.username, request.password))
      ensures resp.status == OK ==>
        resp.body.UserJson? && resp.body.user.id in users.users && users.users[resp.body.user.id] == resp.body.user
        && UserService.Holders(users.users, request.username) == {resp.body.user.id}
        && request.password.Some? && users.encoder.matches(request.password.value, resp.body.user.password.value)
      ensures forall id :: (UserService.Holders(users.users, request.username) == {id} && request.password.Some?
        && users.encoder.matches(request.password.value, users.users[id].password.value)
        ==> resp == Response(OK, UserJson(users.users[id])))
      ensures UserService.Holders(users.users, request.username) == {} ==> resp == Response(UNAUTHORIZED, Message(InvalidCredentials))
    {
      var found := users.AuthenticateUser(request.username, request.password);
      resp := LoginResponse(found);
    }

    /** `POST /api/users`: the stored account, or a 500 when the password is missing. */
    method CreateUser(u: User) returns (resp: Response)
      requires users.Valid()
      modifies users`users, users`nextId, users`secrets
      ensures users.Valid()
      ensures u.password.None? ==>
        resp == Failure && users.users == old(users.users) && users.nextId == old(users.nextId) && users.secrets == old(users.secrets)
      ensures u.password.Some? ==>
        var saved := User(old(users.nextId), u.username, u.email, Some(users.encoder.encode(u.password.value)), Some(UserService.RoleOrDefault(u.role)));
        resp == Response(OK, UserJson(saved)) && users.users == old(users.users)[saved.id := saved]
        && users.nextId == old(users.nextId) + 1 && users.secrets == old(users.secrets)[saved.id := u.password.value]
    {
      var created := users.CreateUser(u);
      resp := match created
        case Returned(saved) => Response(OK, UserJson(saved))
        case Threw(_) => Failure;
    }

    /** `GET /api/users/{id}`: 200 with the row, or 404. */
    method GetUserById(id: int) returns (resp: Response)
      ensures resp.status == OK <==> id in users.users
      ensures id in users.users ==> resp.body == UserJson(users.users[id])
      ensures id !in users.users ==> resp == NotFound
    {
      var found := users.GetUserById(id);
      resp := UserOrNotFound(found);
    }

    /** `PUT /api/users/{id}`: 200 with the updated row, or 404. */
    method UpdateUser(id: int, u: User) returns (resp: Response)
      requires users.Valid()
      modifies users`users, users`secrets
      ensures users.Valid()
      ensures resp.status == OK <==> id in old(users.users)
      ensures id in old(users.users) ==>
        var saved := old(users.users)[id].(username := u.username, email := u.email, role := u.role,
          password := if Present(u.password) then Some(users.encoder.encode(u.password.value)) else old(users.users)[id].password);
        resp == Response(OK, UserJson(saved)) && users.users == old(users.users)[id := saved]
        && users.secrets == if Present(u.password) then old(users.secrets)[id := u.password.value] else old(users.secrets)
      ensures id !in old(users.users) ==> resp == NotFound && users.users == old(users.users) && users.secrets == old(users.secrets)
    {
      var updated := users.UpdateUser(id, u);
      resp := UserOrNotFound(updated);
    }

    /** `DELETE /api/users/{id}`: 200 with a message when the row existed, else 404. */
    method DeleteUser(id: int) returns (resp: Response)
      requires users.Valid()
      modifies users`users, users`secrets
      ensures users.Valid()
      ensures resp == if id in old(users.users) then Response(OK, Message(UserDeleted)) else NotFound
      ensures users.users == old(users.users) - {id} && users.secrets == old(users.secrets) - {id}
    {
      var deleted := users.DeleteUser(id);
      resp := if deleted then Response(OK, Message(UserDeleted)) else NotFound;
    }

    /** `GET /api/users`: every row in table order. */
    method GetAllUsers() returns (all: seq<User>)
      ensures |all| == |users.users|
      ensures forall id :: id in users.users ==> users.users[id] in all
      ensures forall i :: 0 <= i < |all| ==> all[i] in users.users.Values
    {
      all := users.GetAllUsers();
    }

    /** `GET /api/users/dashboard/stats`: the number of rows in each table. */
    method GetDashboardStats() returns (resp: Response)
      ensures resp == Response(OK, StatsJson(DashboardStats(|users.users|, |posts.posts|)))
    {
      var totalUsers := users.GetUserCount();
      var totalPosts := posts.Count();
      resp := Response(OK, StatsJson(DashboardStats(totalUsers, totalPosts)));
    }
  }

  /**
   * The statistics follow the tables: after one registration, two posts and
   * the deletion of one of them, the dashboard counts one user and one post.
   */
  method StatsAfterChanges(encoder: Encoder, u: User, first: Post, second: Post) returns (stats: Response)
    requires u.password.Some?
    ensures stats == Response(OK, StatsJson(DashboardStats(1, 1)))
  {
    var accounts := new UserService.UserService(encoder);
    var table := new PostService.PostService();
    var controller := new UserController(accounts, table);
    var created := controller.CreateUser(u);
    var a := table.CreatePost(first);
    var b := table.CreatePost(second);
    assert table.posts.Keys == {1, 2};
    var gone := table.DeletePost(a.id);
    assert table.posts.Keys == {2};
    stats := controller.GetDashboardStats();
  }
}
