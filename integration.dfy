/**
 * How the client pages and the server controllers fit together: what the
 * card shows for a stored note, which client requests the server accepts,
 * and which error the register page shows for a server refusal.
 */
module Integration {
  import opened Wrappers
  import opened JsString
  import opened NoteModel
  import opened Wire
  import opened SubtaskEditor
  import NotesController
  import AuthController
  import NoteCard
  import HomePage
  import NoteDetailPage
  import CreatePage
  import RegisterPage

  /**
   * The server never sends subtasks, so for every stored note the card shows
   * the stored status and the status-mapped percentage, and the edit page
   * starts from that status with no subtask rows.
   */
  lemma StoredNoteShownByStatus(n: Note, routeId: NoteId)
    ensures NoteCard.DeriveStatus(ToJson(n)) == Name(n.status)
    ensures NoteCard.ComputeProgress(ToJson(n)) == match n.status
      case Completed => 100
      case InProgress => 50
      case Pending => 0
    ensures NoteDetailPage.Load(routeId, ToJson(n)).status == Name(n.status)
    ensures NoteDetailPage.Load(routeId, ToJson(n)).subtasks == []
  {
  }

  /** A form the create page sends, with a status from its select, is stored with the caller as owner. */
  lemma SubmittedFormIsCreated(f: CreatePage.CreateForm, caller: UserId, id: NoteId, now: nat)
    requires CreatePage.Submit(f).Post? && f.status in StatusValues
    ensures var r := NotesController.CreateReply(CreatePage.Submit(f).body, caller, id, now);
      && r.Ok? && r.code == 201 && r.value.user == caller
      && r.value.title == f.title && r.value.content == f.content
      && Name(r.value.status) == f.status
  {
  }

  /**
   * A new task sent with one of two subtasks ticked: the server
   * stores the selected status, not one derived from the subtasks, and the
   * card of the stored note shows `pending` at 0%.
   */
  lemma CreatedStatusNotDerived(caller: UserId, id: NoteId, now: nat)
    ensures var f := CreatePage.CreateForm("T", "C", "pending", [Subtask("a", true), Subtask("b", false)]);
      var r := NotesController.CreateReply(CreatePage.Submit(f).body, caller, id, now);
      && r.Ok? && r.value.status == Pending
      && NoteCard.DeriveStatus(ToJson(r.value)) == "pending"
      && NoteCard.ComputeProgress(ToJson(r.value)) == 0
  {
    var f := CreatePage.CreateForm("T", "C", "pending", [Subtask("a", true), Subtask("b", false)]);
    assert !IsWhitespace('T') && !IsWhitespace('C');
    assert !AllWhitespace(f.title) by { assert f.title[0] == 'T'; }
    assert !AllWhitespace(f.content) by { assert f.content[0] == 'C'; }
    SubmittedFormIsCreated(f, caller, id, now);
  }

  /**
   * A save the edit page lets through, with a status from its select, is
   * accepted by the server for the owner's note: title and content are taken
   * as typed, the status as selected, and the owner stays the same whatever
   * `user` the spread note carries.
   */
  lemma SavedStateIsUpdated(st: NoteDetailPage.DetailState, n: Note, now: nat)
    requires NoteDetailPage.Save(st).Put? && st.status in StatusValues
    requires Valid(n) && n.updatedAt <= now
    ensures var r := NotesController.UpdateReply(Some(n), NoteDetailPage.Save(st).body, now);
      && r.Ok? && r.code == 200
      && r.value.title == st.note.title && r.value.content == st.note.content
      && Name(r.value.status) == st.status && r.value.user == n.user && r.value.id == n.id
  {
  }

  /** Completing a note that has no subtasks: status `completed` is stored and the card shows 100%. */
  lemma CompletingWithoutSubtasks(n: Note, now: nat)
    requires Valid(n) && n.updatedAt <= now
    ensures var r := NotesController.UpdateReply(Some(n), NoteBody(None, None, Some("completed"), None, None), now);
      r.Ok? && r.value.status == Completed && NoteCard.ComputeProgress(ToJson(r.value)) == 100
  {
  }

  /** The dashboard groups every note the server lists: stored statuses are always one of the three. */
  lemma ServerNotesAllGrouped(ns: seq<Note>)
    ensures var js := seq(|ns|, i requires 0 <= i < |ns| => ToJson(ns[i]));
      var d := HomePage.Group(js);
      |d.pending| + |d.inProgress| + |d.completed| == |ns|
  {
    var js := seq(|ns|, i requires 0 <= i < |ns| => ToJson(ns[i]));
    HomePage.GroupsCover(js);
  }

  /**
   * Every refusal `register` can answer with carries a message and no
   * `errors` array, so the register page shows it word for word.
   */
  lemma RegisterRefusalShown(users: seq<AuthController.User>, body: AuthController.RegisterBody)
    requires AuthController.RegisterRefusal(users, body).Some?
    ensures var m := AuthController.RegisterRefusal(users, body).value;
      RegisterPage.FailureMessage(Some(RegisterPage.ErrorData(None, Some(m)))) == m
  {
  }

  /**
   * A form the register page sends, with username and email filled in, is
   * never refused by the server for a missing field; with neither taken, it
   * is not refused at all.
   */
  lemma CheckedPasswordIsPresent(users: seq<AuthController.User>, f: RegisterPage.RegisterForm)
    requires RegisterPage.OnSubmit(f).CallRegister? && f.username != "" && f.email != ""
    ensures var body := AuthController.RegisterBody(Some(f.username), Some(f.email), Some(f.password));
      AuthController.RegisterRefusal(users, body) != Some(AuthController.MissingRegisterFields)
    ensures var body := AuthController.RegisterBody(Some(f.username), Some(f.email), Some(f.password));
      !AuthController.Taken(users, f.email, f.username) ==> AuthController.RegisterRefusal(users, body).None?
  {
  }
}
