/**
 * The server's records, its password encoder, the HTTP responses its
 * controllers build, and Java's notion of a blank string.
 */
module Entities {
  import opened Maybe
  import Text

  /** A row of the user table; every string column may be `null`. */
  datatype User = User(id: int, username: Option<string>, email: Option<string>, password: Option<string>, role: Option<string>)

  /** A row of the post table; `createdAt` is the clock reading taken when the request body was built. */
  datatype Post = Post(id: int, title: Option<string>, content: Option<string>, author: Option<string>, createdAt: int)

  /** `DashboardStatsDTO`. */
  datatype DashboardStats = DashboardStats(totalUsers: int, totalPosts: int)

  /** The password encoder, left uninterpreted: any hash function and any check will do. */
  datatype Encoder = Encoder(encode: string -> string, matches: (string, string) -> bool)

  /** A service call either returns or throws (the exception's message). */
  datatype Thrown<+T> = Returned(value: T) | Threw(message: string)

  /** What a controller method answers. */
  datatype Body = NoBody | Message(text: string) | UserJson(user: User) | PostJson(post: Post) | StatsJson(stats: DashboardStats)

  datatype Response = Response(status: int, body: Body)

  const OK := 200
  const CREATED := 201
  const BAD_REQUEST := 400
  const UNAUTHORIZED := 401
  const NOT_FOUND := 404
  const INTERNAL_SERVER_ERROR := 500

  /** `ResponseEntity.notFound().build()`. */
  const NotFound := Response(NOT_FOUND, NoBody)

  /** What Spring answers when a controller method lets an exception escape. */
  const Failure := Response(INTERNAL_SERVER_ERROR, NoBody)

  /** `String.trim` removes every character up to and including the space, U+0020. */
  predicate JavaSpace(c: char)
  {
    c <= ' '
  }

  /** `s == null || s.trim().isEmpty()`. */
  predicate Blank(s: Option<string>)
  {
    s.None? || Text.Strip(s.value, JavaSpace) == []
  }

  /** A string is blank exactly when it is `null` or holds no character above U+0020. */
  lemma BlankIff(s: Option<string>)
    ensures Blank(s) <==> s.None? || forall i :: 0 <= i < |s.value| ==> s.value[i] <= ' '
  {
    if s.Some? {
      Text.StripEmptyIffAllSpace(s.value, JavaSpace);
    }
  }
}
