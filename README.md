# Blog administration: client session, admin screens and REST services

A model of a small blog system in two halves.

**Browser client.** `AuthProvider` holds the signed-in identity, a `loading` flag that holds back every screen until the saved session has been read, and the `"user"` entry of `localStorage`. The user management and post management screens keep a list, an add/edit modal and an error banner. Every change goes to the server first, and the list is only ever replaced by a fresh fetch. The admin dashboard shows two counts and a user table, and can log out. The comment section shows a post's comments newest first and puts a newly posted comment in front without refetching.

**Server.** `UserService` and `PostService` work over tables keyed by id. Passwords are stored only as the encoder's hashes. The post listing is sorted newest first by a stable sort. `PostController` and `UserController` map service results to HTTP statuses: 200, 201, 400, 401 and 404.

Each screen and each service is a class whose fields are the component's state or the service's table. Its methods perform one handler or one service call, and their `ensures` give the whole new state. A request the client sends is the value returned by the step that issues it. The callback that settles the request is a separate method that takes the outcome as a parameter. The session transitions are also stated as functions on a `State` value (`Hydrated`, `LoggedIn`, `LoggedOut`), and the provider's methods are proved to perform exactly those. `JSON.stringify`/`JSON.parse` of the saved identity is a concrete serializer and parser (`Json`) with its round trip proved in both directions. The password encoder is a pair of arbitrary functions (`Entities.Encoder`). A ghost map records the password each stored hash was computed from, and `Valid()` keeps every stored password equal to the hash of that secret.

Modules: `Maybe`, `Text`, `Api`, `Json`, `Session`, `UserManagement`, `PostManagement`, `CommentSection`, `AdminDashboard`, `Entities`, `Store`, `UserService`, `PostService`, `PostController`, `UserController`.

## Model

| member | source | states |
|---|---|---|
| Text.StripEmptyIffAllSpace | frontend/src/pages/CommentSection.js:24 | trimming leaves nothing exactly when every character is white space (for any notion of white space) |
| Entities.BlankIff | backend/src/main/java/backend/Controller/PostController.java:48-56 | a Java string is blank (`null` or empty after `trim`) exactly when it is `null` or holds no character above U+0020 |
| Json.ParseSerialize | frontend/src/context/Authentication.js:35 | parsing the text `login` saves gives back the identity it saved |
| Json.ParseRecordIff | frontend/src/context/Authentication.js:17 | a saved text parses to identity `u` exactly when it is the text saved for `u` |
| Json.MalformedIff | frontend/src/context/Authentication.js:16-23 | parsing fails exactly when the text is neither `null` nor the text of some identity |
| Json.SerializePrintable | frontend/src/context/Authentication.js:35 | the saved text holds no raw control character: quote, backslash and the control characters are written as escapes (`\n`, `\t`, `\u00XX`, …) |
| Json.RawControlMalformed | frontend/src/context/Authentication.js:16-23 | a text holding a raw control character (below U+0020) does not parse |
| Json.SerializeNonEmpty | frontend/src/context/Authentication.js:15 | a saved identity is never the empty string (so it is never skipped as absent) nor `null` |
| Session.Hydrated | frontend/src/context/Authentication.js:10-30 | after the mount effect loading is over; no saved text leaves user and storage alone; a parsed identity is installed, `null` clears the user, an unparsable text is removed and the user kept; other keys are untouched |
| Session.LoggedIn | frontend/src/context/Authentication.js:32-37 | login sets the user and saves a text that parses back to that identity; loading and other keys unchanged |
| Session.LoggedOut | frontend/src/context/Authentication.js:39-44 | logout clears the user and removes the saved key; loading and other keys unchanged |
| Session.HydrateNothingSaved | frontend/src/context/Authentication.js:24-28 | with nothing saved a fresh provider comes up signed out and stops loading |
| Session.HydrateSavedIdentity | frontend/src/context/Authentication.js:13-18 | a fresh provider over the text of an identity comes up signed in as that identity |
| Session.HydrateMalformed | frontend/src/context/Authentication.js:20-23 | a fresh provider over an unparsable text comes up signed out with the text removed |
| Session.HydrateRawControl | frontend/src/context/Authentication.js:16-23 | a fresh provider over a saved text holding a raw control character (an unescaped line feed in a name, say) comes up signed out with the text removed |
| Session.LoginSurvivesReload | frontend/src/context/Authentication.js:32-37 | after login a page reload restores the same identity, including one whose e-mail or role is `null` |
| Session.LogoutSurvivesReload | frontend/src/context/Authentication.js:39-44 | after logout a page reload stays signed out |
| Session.LogoutIdempotent | frontend/src/context/Authentication.js:39-44 | a second logout changes nothing |
| Session.LoginReplaces | frontend/src/context/Authentication.js:32-37 | two logins in a row leave the state of the second alone |
| Session.AuthProvider.constructor | frontend/src/context/Authentication.js:7-8 | first render: no user, loading |
| Session.AuthProvider.HydrateEffect | frontend/src/context/Authentication.js:10-30 | the effect performs exactly the `Hydrated` transition |
| Session.AuthProvider.Login | frontend/src/context/Authentication.js:32-37 | the method performs exactly the `LoggedIn` transition |
| Session.AuthProvider.Logout | frontend/src/context/Authentication.js:39-44 | the method performs exactly the `LoggedOut` transition |
| Session.AuthProvider.Render | frontend/src/context/Authentication.js:47-61 | a spinner exactly while loading; the children are rendered exactly when `RendersChildren` holds of the state, and they see the current user |
| Api.Guard | frontend/src/pages/PostManagement.js:27-32 | a redirect to `/` exactly when nobody is signed in; the three protected screens share it |
| UserManagement.ValidationError | frontend/src/pages/UserManagement.js:95-103 | nothing is refused exactly when username and email are filled in and, for a new user, the password; the names check comes first |
| UserManagement.UserManagementScreen.constructor | frontend/src/pages/UserManagement.js:9-20 | empty list, loading, modal closed in add mode with a blank `USER` buffer, no error |
| UserManagement.UserManagementScreen.GuardEffect | frontend/src/pages/UserManagement.js:28-33 | redirect to `/` exactly when nobody is signed in |
| UserManagement.UserManagementScreen.FetchUsers | frontend/src/pages/UserManagement.js:38-40 | raises the spinner and asks for the user list |
| UserManagement.UserManagementScreen.LoadEffect | frontend/src/pages/UserManagement.js:52-56 | the list is requested exactly when somebody is signed in |
| UserManagement.UserManagementScreen.OnUsersLoaded | frontend/src/pages/UserManagement.js:41-49 | success replaces the list wholesale; failure keeps it and shows the load error; loading ends either way |
| UserManagement.UserManagementScreen.HandleAddClick | frontend/src/pages/UserManagement.js:61-72 | add mode, blank buffer with role `USER`, error cleared, modal open |
| UserManagement.UserManagementScreen.HandleEditClick | frontend/src/pages/UserManagement.js:77-88 | edit mode with the row's id, names and role (`USER` when falsy), empty password, error cleared, modal open |
| UserManagement.UserManagementScreen.ChangeField | frontend/src/pages/UserManagement.js:251-282 | typing replaces exactly one field of the buffer |
| UserManagement.UserManagementScreen.HandleSave | frontend/src/pages/UserManagement.js:93-130 | no request exactly when validation fails (and then its message is shown); otherwise a create in add mode, an update of the buffer's id in edit mode |
| UserManagement.UserManagementScreen.OnSaveSucceeded | frontend/src/pages/UserManagement.js:108-124 | closes the modal and refetches |
| UserManagement.UserManagementScreen.OnSaveFailed | frontend/src/pages/UserManagement.js:113-128 | shows the create or the update error, by which request failed |
| UserManagement.UserManagementScreen.HandleDelete | frontend/src/pages/UserManagement.js:135-137 | a delete of that id is sent exactly when the user confirmed |
| UserManagement.UserManagementScreen.OnDeleteSucceeded | frontend/src/pages/UserManagement.js:138-141 | refetches the list |
| UserManagement.UserManagementScreen.CloseModal | frontend/src/pages/UserManagement.js:236 | the modal is closed |
| UserManagement.UserManagementScreen.DismissError | frontend/src/pages/UserManagement.js:175 | the error is cleared |
| UserManagement.AddUserRound | frontend/src/pages/UserManagement.js:61-130 | a create is sent exactly when all three fields are filled in; after it succeeds the table is exactly the refetched list |
| PostManagement.ValidationError | frontend/src/pages/PostManagement.js:92-95 | nothing is refused exactly when title and content are non-empty (white space passes) |
| PostManagement.PostManagementScreen.constructor | frontend/src/pages/PostManagement.js:9-19 | empty list, loading, modal closed in add mode with an empty buffer, no error |
| PostManagement.PostManagementScreen.GuardEffect | frontend/src/pages/PostManagement.js:27-32 | redirect to `/` exactly when nobody is signed in |
| PostManagement.PostManagementScreen.FetchPosts | frontend/src/pages/PostManagement.js:37-39 | raises the spinner and asks for the post list |
| PostManagement.PostManagementScreen.LoadEffect | frontend/src/pages/PostManagement.js:51-55 | the list is requested exactly when somebody is signed in |
| PostManagement.PostManagementScreen.OnPostsLoaded | frontend/src/pages/PostManagement.js:40-48 | success replaces the list wholesale; failure keeps it and shows the load error; loading ends either way |
| PostManagement.PostManagementScreen.HandleAddClick | frontend/src/pages/PostManagement.js:60-70 | add mode, empty buffer authored by the signed-in user, error cleared, modal open |
| PostManagement.PostManagementScreen.HandleEditClick | frontend/src/pages/PostManagement.js:75-85 | edit mode with the row's id, title, content and author, error cleared, modal open |
| PostManagement.PostManagementScreen.ChangeField | frontend/src/pages/PostManagement.js:244-256 | typing replaces exactly the title or the content of the buffer |
| PostManagement.PostManagementScreen.HandleSave | frontend/src/pages/PostManagement.js:90-122 | no request exactly when validation fails (and then its message is shown); otherwise a create in add mode, an update of the buffer's id in edit mode |
| PostManagement.PostManagementScreen.OnSaveSucceeded | frontend/src/pages/PostManagement.js:100-116 | closes the modal and refetches |
| PostManagement.PostManagementScreen.OnSaveFailed | frontend/src/pages/PostManagement.js:105-120 | shows the create or the update error, by which request failed |
| PostManagement.PostManagementScreen.HandleDelete | frontend/src/pages/PostManagement.js:127-129 | a delete of that id is sent exactly when the user confirmed |
| PostManagement.PostManagementScreen.OnDeleteSucceeded | frontend/src/pages/PostManagement.js:130-133 | refetches the list |
| PostManagement.PostManagementScreen.CloseModal | frontend/src/pages/PostManagement.js:229 | the modal is closed |
| PostManagement.PostManagementScreen.DismissError | frontend/src/pages/PostManagement.js:167 | the error is cleared |
| PostManagement.FailedEditRound | frontend/src/pages/PostManagement.js:75-138 | a failed edit, then closing the modal and a confirmed delete whose refetch fails, leaves the modal closed and the first list shown, with the load error |
| CommentSection.ReverseIndex | frontend/src/pages/CommentSection.js:17 | the reversed list has the element `k` places from the back at place `k` |
| CommentSection.ReverseAppend | frontend/src/pages/CommentSection.js:17 | a comment the server lists last is shown first after a refetch |
| CommentSection.ReverseReverse | frontend/src/pages/CommentSection.js:17 | reversing twice restores the server's order |
| CommentSection.CommentSectionView.constructor | frontend/src/pages/CommentSection.js:10-11 | no comments, empty input |
| CommentSection.CommentSectionView.FetchEffect | frontend/src/pages/CommentSection.js:14-16 | comments of the post are requested exactly when the post id is truthy |
| CommentSection.CommentSectionView.OnCommentsLoaded | frontend/src/pages/CommentSection.js:17 | the list shown is the server's list, last first |
| CommentSection.CommentSectionView.ChangeInput | frontend/src/pages/CommentSection.js:52 | the input holds what was typed |
| CommentSection.CommentSectionView.HandleSubmit | frontend/src/pages/CommentSection.js:22-30 | nothing is sent exactly when nobody is signed in or the text is all white space; otherwise user id, post id and the untrimmed text |
| CommentSection.CommentSectionView.OnCommentPosted | frontend/src/pages/CommentSection.js:33-36 | the created comment goes in front and the input is cleared |
| CommentSection.CommentSectionView.OnCommentsLoadFailed | frontend/src/pages/CommentSection.js:18 | a failed fetch leaves the list and the input as they were |
| CommentSection.CommentSectionView.OnCommentPostFailed | frontend/src/pages/CommentSection.js:37 | a failed post leaves the list and the typed text as they were |
| CommentSection.RetryAfterFailure | frontend/src/pages/CommentSection.js:22-37 | after a failed post, submitting again sends the same payload, and the list shown is unchanged |
| CommentSection.PostAfterLoad | frontend/src/pages/CommentSection.js:14-36 | the optimistic prepend shows what a refetch would show when the server lists the new comment last |
| AdminDashboard.AdminDashboardScreen.constructor | frontend/src/pages/AdminDashboard.js:9-16 | empty list, loading, both counts zero |
| AdminDashboard.AdminDashboardScreen.GuardEffect | frontend/src/pages/AdminDashboard.js:24-32 | redirect to `/` exactly when nobody is signed in |
| AdminDashboard.AdminDashboardScreen.StatsEffect | frontend/src/pages/AdminDashboard.js:37-42 | statistics are requested exactly when somebody is signed in |
| AdminDashboard.AdminDashboardScreen.OnStatsLoaded | frontend/src/pages/AdminDashboard.js:43-49 | success replaces the counts; failure keeps them |
| AdminDashboard.AdminDashboardScreen.UsersEffect | frontend/src/pages/AdminDashboard.js:55-61 | users are requested exactly when somebody is signed in |
| AdminDashboard.AdminDashboardScreen.OnUsersLoaded | frontend/src/pages/AdminDashboard.js:62-71 | success replaces the list, failure keeps it; loading ends either way |
| AdminDashboard.AdminDashboardScreen.HandleLogout | frontend/src/pages/AdminDashboard.js:80-85 | the shared session is logged out (user cleared, key removed) and the target is `/` |
| AdminDashboard.LogoutThenGuard | frontend/src/pages/AdminDashboard.js:80-85 | after the dashboard logs out, the guard redirects and a reload stays signed out |
| Store.FindAll | backend/src/main/java/backend/Service/UserService.java:93-95 | every row of the table appears, nothing else, one entry per row |
| Store.FindById | backend/src/main/java/backend/Service/UserService.java:97-99 | present exactly when the id is a key, and then that row |
| UserService.RoleOrDefault | backend/src/main/java/backend/Service/UserService.java:81-84 | the requested role is kept exactly when it is neither `null` nor empty; otherwise `USER` |
| UserService.Authentication | backend/src/main/java/backend/Service/UserService.java:47-65 | no holder of the name: empty; several: an exception; one holder and a `null` password: an exception; a returned account is the unique holder and its hash matches the password; a unique holder whose hash matches is returned |
| UserService.SecretAuthenticates | backend/src/main/java/backend/Service/UserService.java:47-65 | with an encoder that accepts a password against its own hash, a user with a unique name logs in with the password last set |
| UserService.UserService.constructor | backend/src/main/java/backend/Service/UserService.java:29-33 | empty table, identity counter at 1 |
| UserService.UserService.AuthenticateUser | backend/src/main/java/backend/Service/UserService.java:47-65 | returns exactly what `Authentication` specifies, changing nothing |
| UserService.UserService.CreateUser | backend/src/main/java/backend/Service/UserService.java:76-87 | a `null` password throws and stores nothing; otherwise a new row under a fresh id with the hashed password and the defaulted role; stored hashes stay hashes of the recorded passwords |
| UserService.UserService.GetAllUsers | backend/src/main/java/backend/Service/UserService.java:93-95 | every row in table order |
| UserService.UserService.GetUserById | backend/src/main/java/backend/Service/UserService.java:97-99 | the row with that id, if any |
| UserService.UserService.UpdateUser | backend/src/main/java/backend/Service/UserService.java:110-135 | absent id: neither the table nor the recorded passwords change; otherwise username, e-mail and role are overwritten as sent and the hash is replaced only for a non-empty password |
| UserService.UserService.DeleteUser | backend/src/main/java/backend/Service/UserService.java:141-149 | true exactly when the row existed; afterwards it is gone and nothing else changed |
| UserService.UserService.GetUserCount | backend/src/main/java/backend/Service/UserService.java:155-157 | the number of rows |
| UserService.RegisterThenLogin | backend/src/main/java/backend/Service/UserService.java:76-87 | an account just registered logs in with its name and password |
| UserService.RenameKeepsPassword | backend/src/main/java/backend/Service/UserService.java:110-135 | an update with an empty password keeps the old one: the renamed account logs in with it |
| PostService.InsertPermutes | backend/src/main/java/backend/Service/PostService.java:25 | inserting adds exactly the one post |
| PostService.InsertSorted | backend/src/main/java/backend/Service/PostService.java:25 | inserting into a newest-first list keeps it newest first |
| PostService.InsertWithTime | backend/src/main/java/backend/Service/PostService.java:25 | the inserted post lands in front of those sharing its timestamp, and no other post moves relative to its peers |
| PostService.SortSorted | backend/src/main/java/backend/Service/PostService.java:25 | the sorted list is newest first |
| PostService.SortPermutes | backend/src/main/java/backend/Service/PostService.java:25 | the sorted list is a permutation of its input |
| PostService.SortStable | backend/src/main/java/backend/Service/PostService.java:25 | posts sharing a timestamp keep their input order (the sort is stable) |
| PostService.PostService.constructor | backend/src/main/java/backend/Service/PostService.java:16-19 | empty table, identity counter at 1 |
| PostService.PostService.GetAllPosts | backend/src/main/java/backend/Service/PostService.java:22-27 | exactly the rows of the table, newest first, posts with equal timestamps in table order |
| PostService.PostService.GetPostById | backend/src/main/java/backend/Service/PostService.java:29-32 | the row with that id, if any |
| PostService.PostService.CreatePost | backend/src/main/java/backend/Service/PostService.java:34-37 | the post is stored as sent under a fresh id |
| PostService.PostService.UpdatePost | backend/src/main/java/backend/Service/PostService.java:39-47 | absent id: nothing changes; otherwise only title and content are replaced |
| PostService.PostService.DeletePost | backend/src/main/java/backend/Service/PostService.java:49-56 | true exactly when the row existed; afterwards it is gone |
| PostService.PostService.Count | backend/src/main/java/backend/Controller/UserController.java:164 | the number of post rows |
| PostService.TwoRows | backend/src/main/java/backend/Service/PostService.java:23 | a table holding ids 1 and 2 lists row 1 first |
| PostService.SortTwo | backend/src/main/java/backend/Service/PostService.java:25 | two posts come out newer first, and in input order on a tie |
| PostService.ListTwo | backend/src/main/java/backend/Service/PostService.java:22-27 | two posts created in turn are listed newer first, and in creation order on a tie |
| PostController.AcceptedIff | backend/src/main/java/backend/Controller/PostController.java:48-56 | a post is accepted exactly when title, content and author each hold a character above U+0020 |
| PostController.OkOrNotFound | backend/src/main/java/backend/Controller/PostController.java:37-39 | 200 with the post exactly when there is one, else an empty 404 |
| PostController.PostController.constructor | backend/src/main/java/backend/Controller/PostController.java:20-22 | the controller uses the given service |
| PostController.PostController.GetAllPosts | backend/src/main/java/backend/Controller/PostController.java:27-30 | the service's listing: all rows, newest first, stable |
| PostController.PostController.GetPostById | backend/src/main/java/backend/Controller/PostController.java:35-40 | 200 with the row exactly when the id is present, else 404 |
| PostController.PostController.CreatePost | backend/src/main/java/backend/Controller/PostController.java:45-60 | 400 exactly when title, content or author is blank, and then nothing is stored; otherwise 201 with the row stored under the counter's id, and the counter advances by one |
| PostController.PostController.UpdatePost | backend/src/main/java/backend/Controller/PostController.java:65-70 | 200 with the updated row exactly when the id is present (no blank check), else 404 and nothing changes |
| PostController.PostController.DeletePost | backend/src/main/java/backend/Controller/PostController.java:75-82 | 200 `Post Deleted` exactly when the row existed, else 404; the row is gone |
| UserController.LoginResponse | backend/src/main/java/backend/Controller/UserController.java:41-47 | 200 with the account exactly when authentication returned one; 401 with the message exactly when it returned none; 500 when it threw |
| UserController.UserOrNotFound | backend/src/main/java/backend/Controller/UserController.java:80-84 | 200 with the account exactly when there is one, else an empty 404 |
| UserController.UserController.constructor | backend/src/main/java/backend/Controller/UserController.java:26-29 | the controller uses the given service and post table |
| UserController.UserController.Login | backend/src/main/java/backend/Controller/UserController.java:32-48 | 200 exactly when one row carries the name and the password matches its hash, with that row; 401 when no row carries the name |
| UserController.UserController.CreateUser | backend/src/main/java/backend/Controller/UserController.java:61-64 | 500 with table, counter and recorded passwords unchanged when the password is missing; otherwise the stored account under the counter's id, the counter advanced and its password recorded |
| UserController.UserController.GetUserById | backend/src/main/java/backend/Controller/UserController.java:76-85 | 200 with the row exactly when the id is present, else 404 |
| UserController.UserController.UpdateUser | backend/src/main/java/backend/Controller/UserController.java:103-112 | 200 with the updated row exactly when the id is present, and the recorded password changes only for a non-empty one; else 404 and nothing changes |
| UserController.UserController.DeleteUser | backend/src/main/java/backend/Controller/UserController.java:127-136 | 200 with the message exactly when the row existed, else 404; the row and its recorded password are gone |
| UserController.UserController.GetAllUsers | backend/src/main/java/backend/Controller/UserController.java:144-147 | every row, once each |
| UserController.UserController.GetDashboardStats | backend/src/main/java/backend/Controller/UserController.java:158-170 | 200 with the number of user rows and the number of post rows |
| UserController.StatsAfterChanges | backend/src/main/java/backend/Controller/UserController.java:158-170 | after one registration, two posts and one post deletion the counts are one and one |

## Left out

- HTTP transport, `axios` promises and their timing: each request is a returned value and each callback a method, so interleavings of overlapping requests are not modelled.
- `alert`, `window.confirm` (its answer is a parameter), `console` output, navigation other than the returned target, and the spinner and table markup.
- A failed delete on either management screen only shows an alert; the model has no method for it because it changes no state.
- `JSON.stringify`/`JSON.parse` are modelled only for the identity shape `{"id":…,"username":…,"email":…,"role":…}`, where `email` and `role` are a string or `null`. Strings are escaped as `JSON.stringify` escapes them: `\"`, `\\`, `\b`, `\t`, `\n`, `\f`, `\r`, and `\u00XX` with lower-case hex for the other control characters; a raw control character inside a string is refused. The parser accepts only those escapes, so texts `JSON.parse` would also accept count as unparsable: `\/`, any other `\u` escape, upper-case hex, white space between tokens, other JSON values and extra fields. Lone surrogates, which `JSON.stringify` escapes, do not exist among Dafny's characters.
- Json.MalformedIff: the texts it calls unparsable are every text `JSON.parse` throws on, plus well-formed JSON that is not the serializer's text of an identity. Examples are spaces between tokens, other escapes, other values, and extra or reordered fields. In the model, `login` saves only the serializer's text, and a `null` e-mail or role is written and read back. So such a text reaches hydration only if something other than `login` wrote the key. In that case the browser would install the parsed object, while the model removes the key.
- Session.HydrateMalformed: this inherits the gap above. A well-formed JSON text the serializer does not write is removed by the model, but the browser would install it.
- Api.Identity: the identity a login stores is the four fields the client uses: id, username, and an e-mail and role that may be `null`. The rest of the server's user object is not carried. In the browser the saved text also holds those other fields, including the password hash the server returns, and a reload restores them too.
- BCrypt itself: `encode` is an arbitrary deterministic function, so the random salt is not modelled; `matches` is an arbitrary predicate, except that the login lemmas assume it accepts a password against its own hash.
- JPA `save` with a client-supplied id (a merge that would overwrite an existing row): `CreateUser` and `CreatePost` always store under a fresh id.
- Database constraints (`nullable = false` on title and author, any uniqueness of usernames) and the exceptions they raise.
- `findAll` has no ORDER BY; `Store.FindAll` fixes the order as ascending primary key.
- PostService.PostService.GetAllPosts: `createdAt` is an integer clock reading that is never `null`. A `null` timestamp, which would make the sort throw, is not modelled.
- `createdAt` is whatever the request object carries. Jackson builds it with the default constructor, which stamps the current time unless the body names a value; the clock is therefore a field of the input.
- Spring's handling of an escaped exception is modelled as a plain 500 with no body.
- `User.java` is not part of this model; the user record's fields are those `UserService` reads and writes.
- `CommentController`, `CommentService`, the login and registration pages, the home page and the routing in `App.js` are not part of this model.
- The dashboard's user-fetch failure alert and its statistics failure log change no state and are not modelled.
- Integer widths: ids and counts are unbounded integers, so overflow of `Long` identity values and `long` counts is not modelled.

## Notes on the code

- The post screen checks only that title and content are non-empty, while `POST /api/posts` refuses a title, content or author that is blank after `trim`. A title of spaces therefore passes the client check and gets a 400, which the screen reports as `Failed to create post`. `PUT /api/posts/{id}` does no blank check at all.
- `updateUser` copies the role as sent, so an update with an empty role stores an empty role, even though registration would have defaulted it to `USER`. The user screen never sends an empty role, because its edit buffer defaults a falsy role to `USER`.
