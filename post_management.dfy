/**
 * The post management screen: the same discipline as the user screen (the
 * list is replaced only by a fresh fetch, every change goes to the server
 * first), over posts. A new post's author is the signed-in user's name and
 * is not editable.
 */
module PostManagement {
  import opened Maybe
  import opened Api

  const FieldsRequired := "Title and content are required"
  const LoadFailed := "Failed to load posts"
  const CreateFailed := "Failed to create post"
  const UpdateFailed := "Failed to update post"

  /** The check `handleSave` makes before sending anything (no trimming: `"  "` passes). */
  function ValidationError(f: PostForm): (e: Option<string>)
    ensures e.None? <==> f.title != "" && f.content != ""
    ensures e.Some? ==> e.value == FieldsRequired
  {
    if f.title == "" || f.content == "" then Some(FieldsRequired) else None
  }

  /** The inputs of the modal that the user can change (the author input is disabled). */
  datatype Field = Title | Content

  class PostManagementScreen {
    var posts: seq<PostRow>
    var loading: bool
    var showModal: bool
    var modalMode: Mode
    var currentPost: PostForm
    var error: string

    /** In edit mode the buffer always carries the id of the post being edited. */
    predicate Valid()
      reads this
    {
      modalMode == Edit ==> currentPost.id.Some?
    }

    constructor ()
      ensures Valid()
      ensures posts == [] && loading && !showModal && modalMode == Add
      ensures currentPost == PostForm(None, "", "", "") && error == ""
    {
      posts, loading, showModal := [], true, false;
      modalMode, currentPost, error := Add, PostForm(None, "", "", ""), "";
    }

    /** The protection effect: with nobody signed in, go back to the public entry. */
    method GuardEffect(session: Option<Identity>) returns (redirect: Option<string>)
      ensures redirect.None? <==> session.Some?
      ensures redirect.Some? ==> redirect.value == Home
    {
      redirect := Guard(session);
    }

    /** `fetchPosts`: show the spinner and ask for the whole list. */
    method FetchPosts() returns (req: Request)
      modifies this`loading
      ensures loading && req == ListPosts
    {
      loading := true;
      req := ListPosts;
    }

    /** The list is fetched only while someone is signed in. */
    method LoadEffect(session: Option<Identity>) returns (req: Option<Request>)
      modifies this`loading
      ensures req.Some? <==> session.Some?
      ensures req.Some? ==> req.value == ListPosts && loading
      ensures req.None? ==> loading == old(loading)
    {
      if session.Some? {
        var r := FetchPosts();
        req := Some(r);
      } else {
        req := None;
      }
    }

    /** The callbacks of `fetchPosts`: replace the list wholesale, or keep the stale one and say so. */
    method OnPostsLoaded(outcome: Outcome<seq<PostRow>>)
      modifies this`posts, this`loading, this`error
      ensures !loading
      ensures outcome.Succeeded? ==> posts == outcome.data && error == old(error)
      ensures outcome.Failed? ==> posts == old(posts) && error == LoadFailed
    {
      match outcome {
        case Succeeded(data) =>
          posts := data;
        case Failed =>
          error := LoadFailed;
      }
      loading := false;
    }

    /** `handleAddClick`: an empty buffer authored by the signed-in user, add mode, modal open. */
    method HandleAddClick(session: Identity)
      modifies this`modalMode, this`currentPost, this`error, this`showModal
      ensures Valid()
      ensures modalMode == Add && error == "" && showModal
      ensures currentPost == PostForm(None, "", "", session.username)
    {
      modalMode := Add;
      currentPost := PostForm(None, "", "", session.username);
      error := "";
      showModal := true;
    }

    /** `handleEditClick`: copy id, title, content and author of the row, edit mode, modal open. */
    method HandleEditClick(p: PostRow)
      modifies this`modalMode, this`currentPost, this`error, this`showModal
      ensures Valid()
      ensures modalMode == Edit && error == "" && showModal
      ensures currentPost.id == Some(p.id) && currentPost.title == p.title
      ensures currentPost.content == p.content && currentPost.author == p.author
    {
      modalMode := Edit;
      currentPost := PostForm(Some(p.id), p.title, p.content, p.author);
      error := "";
      showModal := true;
    }

    /** Typing into the title or content input replaces that one field of the buffer. */
    method ChangeField(field: Field, value: string)
      requires Valid()
      modifies this`currentPost
      ensures Valid()
      ensures currentPost == match field
        case Title => old(currentPost).(title := value)
        case Content => old(currentPost).(content := value)
    {
      match field {
        case Title => currentPost := currentPost.(title := value);
        case Content => currentPost := currentPost.(content := value);
      }
    }

    /** `handleSave`: send nothing unless title and content are filled in; else create or update. */
    method HandleSave() returns (req: Option<Request>)
      requires Valid()
      modifies this`error
      ensures req.None? <==> ValidationError(currentPost).Some?
      ensures req.None? ==> error == FieldsRequired
      ensures req.Some? ==> error == old(error)
      ensures req.Some? && modalMode == Add ==> req.value == CreatePost(currentPost)
      ensures req.Some? && modalMode == Edit ==> req.value == UpdatePost(currentPost.id.value, currentPost)
    {
      var problem := ValidationError(currentPost);
      if problem.Some? {
        error := problem.value;
        req := None;
      } else if modalMode == Add {
        req := Some(CreatePost(currentPost));
      } else {
        req := Some(UpdatePost(currentPost.id.value, currentPost));
      }
    }

    /** The create or update succeeded: close the modal and fetch the list again. */
    method OnSaveSucceeded() returns (req: Request)
      modifies this`showModal, this`loading
      ensures !showModal && loading && req == ListPosts
    {
      showModal := false;
      req := FetchPosts();
    }

    /** The create or update failed: say which, keep the modal open and the list as it was. */
    method OnSaveFailed(sent: Request)
      requires sent.CreatePost? || sent.UpdatePost?
      modifies this`error
      ensures error == if sent.CreatePost? then CreateFailed else UpdateFailed
    {
      error := if sent.CreatePost? then CreateFailed else UpdateFailed;
    }

    /** `handleDelete`: nothing is sent unless the user confirmed. */
    method HandleDelete(id: int, confirmed: bool) returns (req: Option<Request>)
      ensures req.Some? <==> confirmed
      ensures req.Some? ==> req.value == DeletePost(id)
    {
      req := if confirmed then Some(DeletePost(id)) else None;
    }

    /** The delete succeeded: fetch the list again (a failed delete only shows an alert). */
    method OnDeleteSucceeded() returns (req: Request)
      modifies this`loading
      ensures loading && req == ListPosts
    {
      req := FetchPosts();
    }

    /** The modal's close button and its backdrop. */
    method CloseModal()
      modifies this`showModal
      ensures !showModal
    {
      showModal := false;
    }

    /** The dismiss button of the error banner. */
    method DismissError()
      modifies this`error
      ensures error == ""
    {
      error := "";
    }
  }

  /**
   * An edit round whose save fails, after which the user closes the modal and
   * deletes another row: the delete succeeds but the refetch it starts fails,
   * so the banner shows the load error and the table still shows the rows of
   * the first load (stale but available).
   */
  method FailedEditRound(p: PostRow, newTitle: string, first: seq<PostRow>, other: int)
    returns (sent: Option<Request>, removal: Option<Request>, shown: seq<PostRow>, problem: string, open: bool)
    requires newTitle != "" && p.content != ""
    ensures sent == Some(UpdatePost(p.id, PostForm(Some(p.id), newTitle, p.content, p.author)))
    ensures removal == Some(DeletePost(other))
    ensures shown == first && !open && problem == LoadFailed
  {
    var screen := new PostManagementScreen();
    var load := screen.LoadEffect(Some(Identity(1, "admin", Some("admin@blog"), Some("ADMIN"))));
    screen.OnPostsLoaded(Succeeded(first));
    screen.HandleEditClick(p);
    screen.ChangeField(Title, newTitle);
    sent := screen.HandleSave();
    screen.OnSaveFailed(sent.value);
    assert screen.error == UpdateFailed;
    screen.CloseModal();
    removal := screen.HandleDelete(other, true);
    var again := screen.OnDeleteSucceeded();
    screen.OnPostsLoaded(Failed);
    shown, problem, open := screen.posts, screen.error, screen.showModal;
  }
}
