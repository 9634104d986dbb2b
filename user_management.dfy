/**
 * The user management screen: a table of all users, a modal with an edit
 * buffer for adding or editing one, and the rule that every change goes to
 * the server first and the table is only ever replaced by a fresh list.
 *
 * Each request is issued by one step and settled by another (its `.then` or
 * `.catch` callback): a step that issues a request returns it, and the
 * callback steps take the outcome as a parameter.
 */
module UserManagement {
  import opened Maybe
  import opened Api

  const NamesRequired := "Username and email are required"
  const PasswordRequired := "Password is required for new users"
  const LoadFailed := "Failed to load users"
  const CreateFailed := "Failed to create user"
  const UpdateFailed := "Failed to update user"

  /** The buffer of a new user: no id, empty fields, role `USER`. */
  const BlankForm := UserForm(None, "", "", "", "USER")

  /**
   * The checks `handleSave` makes before sending anything, in their order:
   * `None` when the buffer may be sent, else the message of the first check
   * that fails. Only a new user needs a password.
   */
  function ValidationError(f: UserForm, mode: Mode): (e: Option<string>)
    ensures e.None? <==> f.username != "" && f.email != "" && (mode == Add ==> f.password != "")
    ensures f.username == "" || f.email == "" ==> e == Some(NamesRequired)
    ensures e == Some(PasswordRequired) <==>
      f.username != "" && f.email != "" && mode == Add && f.password == ""
  {
    if f.username == "" || f.email == "" then Some(NamesRequired)
    else if mode == Add && f.password == "" then Some(PasswordRequired)
    else None
  }

  /** The edit buffer for an existing row: the password is never echoed, a falsy role becomes `USER`. */
  function EditForm(u: UserRow): UserForm
  {
    UserForm(Some(u.id), u.username, u.email, "", if Present(u.role) then u.role.value else "USER")
  }

  /** The inputs of the modal, each bound to one field of the buffer. */
  datatype Field = Username | Email | Password | Role

  class UserManagementScreen {
    var users: seq<UserRow>
    var loading: bool
    var showModal: bool
    var modalMode: Mode
    var currentUser: UserForm
    var error: string

    /** In edit mode the buffer always carries the id of the user being edited. */
    predicate Valid()
      reads this
    {
      modalMode == Edit ==> currentUser.id.Some?
    }

    constructor ()
      ensures Valid()
      ensures users == [] && loading && !showModal && modalMode == Add
      ensures currentUser == BlankForm && error == ""
    {
      users, loading, showModal := [], true, false;
      modalMode, currentUser, error := Add, BlankForm, "";
    }

    /** The protection effect: with nobody signed in, go back to the public entry. */
    method GuardEffect(session: Option<Identity>) returns (redirect: Option<string>)
      ensures redirect.None? <==> session.Some?
      ensures redirect.Some? ==> redirect.value == Home
    {
      redirect := Guard(session);
    }

    /** `fetchUsers`: show the spinner and ask for the whole list. */
    method FetchUsers() returns (req: Request)
      modifies this`loading
      ensures loading && req == ListUsers
    {
      loading := true;
      req := ListUsers;
    }

    /** The list is fetched only while someone is signed in. */
    method LoadEffect(session: Option<Identity>) returns (req: Option<Request>)
      modifies this`loading
      ensures req.Some? <==> session.Some?
      ensures req.Some? ==> req.value == ListUsers && loading
      ensures req.None? ==> loading == old(loading)
    {
      if session.Some? {
        var r := FetchUsers();
        req := Some(r);
      } else {
        req := None;
      }
    }

    /** The callbacks of `fetchUsers`: replace the list wholesale, or keep the stale one and say so. */
    method OnUsersLoaded(outcome: Outcome<seq<UserRow>>)
      modifies this`users, this`loading, this`error
      ensures !loading
      ensures outcome.Succeeded? ==> users == outcome.data && error == old(error)
      ensures outcome.Failed? ==> users == old(users) && error == LoadFailed
    {
      match outcome {
        case Succeeded(data) =>
          users := data;
        case Failed =>
          error := LoadFailed;
      }
      loading := false;
    }

    /** `handleAddClick`: a blank buffer in add mode, no error, modal open. */
    method HandleAddClick()
      modifies this`modalMode, this`currentUser, this`error, this`showModal
      ensures Valid()
      ensures modalMode == Add && currentUser == BlankForm && error == "" && showModal
    {
      modalMode := Add;
      currentUser := BlankForm;
      error := "";
      showModal := true;
    }

    /** `handleEditClick`: copy the row into the buffer in edit mode, no error, modal open. */
    method HandleEditClick(u: UserRow)
      modifies this`modalMode, this`currentUser, this`error, this`showModal
      ensures Valid()
      ensures modalMode == Edit && error == "" && showModal
      ensures currentUser.id == Some(u.id)
      ensures currentUser.username == u.username && currentUser.email == u.email
      ensures currentUser.password == ""
      ensures currentUser.role == (if Present(u.role) then u.role.value else "USER")
    {
      modalMode := Edit;
      currentUser := EditForm(u);
      error := "";
      showModal := true;
    }

    /** Typing into one input of the modal replaces that one field of the buffer. */
    method ChangeField(field: Field, value: string)
      requires Valid()
      modifies this`currentUser
      ensures Valid()
      ensures currentUser == match field
        case Username => old(currentUser).(username := value)
        case Email => old(currentUser).(email := value)
        case Password => old(currentUser).(password := value)
        case Role => old(currentUser).(role := value)
    {
      match field {
        case Username => currentUser := currentUser.(username := value);
        case Email => currentUser := currentUser.(email := value);
        case Password => currentUser := currentUser.(password := value);
        case Role => currentUser := currentUser.(role := value);
      }
    }

    /**
     * `handleSave`: check the buffer first and send nothing if a check fails;
     * otherwise send a create in add mode or an update of the buffer's id in
     * edit mode.
     */
    method HandleSave() returns (req: Option<Request>)
      requires Valid()
      modifies this`error
      ensures req.None? <==> ValidationError(currentUser, modalMode).Some?
      ensures req.None? ==> error == ValidationError(currentUser, modalMode).value
      ensures req.Some? ==> error == old(error)
      ensures req.Some? && modalMode == Add ==> req.value == CreateUser(currentUser)
      ensures req.Some? && modalMode == Edit ==> req.value == UpdateUser(currentUser.id.value, currentUser)
    {
      var problem := ValidationError(currentUser, modalMode);
      if problem.Some? {
        error := problem.value;
        req := None;
      } else if modalMode == Add {
        req := Some(CreateUser(currentUser));
      } else {
        req := Some(UpdateUser(currentUser.id.value, currentUser));
      }
    }

    /** The create or update succeeded: close the modal and fetch the list again. */
    method OnSaveSucceeded() returns (req: Request)
      modifies this`showModal, this`loading
      ensures !showModal && loading && req == ListUsers
    {
      showModal := false;
      req := FetchUsers();
    }

    /** The create or update failed: say which, keep the modal open and the list as it was. */
    method OnSaveFailed(sent: Request)
      requires sent.CreateUser? || sent.UpdateUser?
      modifies this`error
      ensures error == if sent.CreateUser? then CreateFailed else UpdateFailed
    {
      error := if sent.CreateUser? then CreateFailed else UpdateFailed;
    }

    /** `handleDelete`: nothing is sent unless the user confirmed. */
    method HandleDelete(id: int, confirmed: bool) returns (req: Option<Request>)
      ensures req.Some? <==> confirmed
      ensures req.Some? ==> req.value == DeleteUser(id)
    {
      req := if confirmed then Some(DeleteUser(id)) else None;
    }

    /** The delete succeeded: fetch the list again (a failed delete only shows an alert). */
    method OnDeleteSucceeded() returns (req: Request)
      modifies this`loading
      ensures loading && req == ListUsers
    {
      req := FetchUsers();
    }

    /** The modal's close button and its backdrop. */
    method CloseModal()
      modifies this`showModal
      ensures !showModal
    {
      showModal := false;
    }

    /** The dismiss button of the error banner. */
    method DismissError()
      modifies this`error
      ensures error == ""
    {
      error := "";
    }
  }

  /**
   * A whole add-user round on a fresh screen: sign-in load, open the add
   * modal, type the three fields, save; then the create succeeds and the
   * refetch returns `server`. Nothing is sent unless the three fields are
   * non-empty, and after a successful round the table is exactly `server`.
   */
  method AddUserRound(name: string, email: string, password: string, first: seq<UserRow>, server: seq<UserRow>)
    returns (sent: Option<Request>, shown: seq<UserRow>, problem: string)
    ensures sent.Some? <==> name != "" && email != "" && password != ""
    ensures sent.Some? ==> sent.value == CreateUser(UserForm(None, name, email, password, "USER"))
    ensures sent.Some? ==> shown == server && problem == ""
    ensures sent.None? ==> shown == first && problem != ""
  {
    var screen := new UserManagementScreen();
    var load := screen.LoadEffect(Some(Identity(1, "admin", Some("admin@blog"), Some("ADMIN"))));
    screen.OnUsersLoaded(Succeeded(first));
    screen.HandleAddClick();
    screen.ChangeField(Username, name);
    screen.ChangeField(Email, email);
    screen.ChangeField(Password, password);
    sent := screen.HandleSave();
    if sent.Some? {
      var refetch := screen.OnSaveSucceeded();
      screen.OnUsersLoaded(Succeeded(server));
    }
    shown, problem := screen.users, screen.error;
  }
}
