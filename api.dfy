/**
 * The browser client's view of the REST backend: the JSON records it
 * receives, the edit buffers it sends back, and one constructor per request
 * it can issue (the endpoint table of the client).
 */
module Api {
  import opened Maybe

  /**
   * The signed-in principal the session keeps (the body of a login or register
   * response); the server stores e-mail and role as sent by an update, so
   * either may be `null`.
   */
  datatype Identity = Identity(id: int, username: string, email: Option<string>, role: Option<string>)

  /** A row of `GET /api/users`; `role` may be `null` in the JSON. */
  datatype UserRow = UserRow(id: int, username: string, email: string, role: Option<string>)

  /** A row of `GET /api/posts`. */
  datatype PostRow = PostRow(id: int, title: string, content: string, author: string, createdAt: string)

  /** A row of `GET /api/comments/post/{postId}`. */
  datatype CommentRow = CommentRow(id: int, userId: int, postId: int, content: string)

  /** The body of `GET /api/users/dashboard/stats`. */
  datatype Stats = Stats(totalUsers: int, totalPosts: int)

  /** The user edit buffer of the user management screen (`id` is `null` for a new user). */
  datatype UserForm = UserForm(id: Option<int>, username: string, email: string, password: string, role: string)

  /** The post edit buffer of the post management screen (`id` is `null` for a new post). */
  datatype PostForm = PostForm(id: Option<int>, title: string, content: string, author: string)

  /** The body of `POST /api/comments`; `postId` is the component's prop, which may be missing. */
  datatype CommentPayload = CommentPayload(userId: int, postId: Option<int>, content: string)

  /** Add or edit: which request the modal's save button sends. */
  datatype Mode = Add | Edit

  /** Every request the client issues, one constructor per endpoint it calls. */
  datatype Request =
    | ListUsers                                   // GET    /api/users
    | CreateUser(user: UserForm)                  // POST   /api/users
    | UpdateUser(id: int, user: UserForm)         // PUT    /api/users/{id}
    | DeleteUser(id: int)                         // DELETE /api/users/{id}
    | FetchStats                                  // GET    /api/users/dashboard/stats
    | ListPosts                                   // GET    /api/posts
    | CreatePost(post: PostForm)                  // POST   /api/posts
    | UpdatePost(id: int, post: PostForm)         // PUT    /api/posts/{id}
    | DeletePost(id: int)                         // DELETE /api/posts/{id}
    | ListComments(postId: int)                   // GET    /api/comments/post/{postId}
    | CreateComment(comment: CommentPayload)      // POST   /api/comments

  /** The public entry route every protected screen redirects to. */
  const Home := "/"

  /** The protection effect of every protected screen: with nobody signed in, go back to the public entry. */
  function Guard(session: Option<Identity>): (redirect: Option<string>)
    ensures redirect.None? <==> session.Some?
    ensures redirect.Some? ==> redirect.value == Home
  {
    if session.None? then Some(Home) else None
  }
}
