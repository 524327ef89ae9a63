/**
 * The create page (frontend/src/pages/CreatePage.jsx): the form state, its
 * subtask rows and the submit handler's guard and payload.
 */
module CreatePage {
  import opened Wrappers
  import opened JsString
  import opened Wire
  import opened SubtaskEditor

  datatype CreateForm = CreateForm(title: string, content: string, status: string, subtasks: seq<Subtask>)

  /** The `useState` initial values. */
  function InitialForm(): (f: CreateForm)
    ensures f.title == "" && f.content == "" && f.status == "pending" && f.subtasks == []
  {
    CreateForm("", "", "pending", [])
  }

  /** A subtask title input: the copy-and-assign of `copy[idx]`, touching nothing else in the form. */
  method EditSubtaskTitle(f: CreateForm, idx: nat, title: string) returns (g: CreateForm)
    requires idx < |f.subtasks|
    ensures g.title == f.title && g.content == f.content && g.status == f.status
    ensures |g.subtasks| == |f.subtasks|
    ensures g.subtasks[idx] == f.subtasks[idx].(title := title)
    ensures forall i :: 0 <= i < |f.subtasks| && i != idx ==> g.subtasks[i] == f.subtasks[i]
  {
    var next := RetitleAt(f.subtasks, idx, title);
    g := f.(subtasks := next);
  }

  /** A remove button: exactly row `idx` goes, the other rows keep their order. */
  function RemoveSubtask(f: CreateForm, idx: nat): (g: CreateForm)
    requires idx < |f.subtasks|
    ensures g.title == f.title && g.content == f.content && g.status == f.status
    ensures |g.subtasks| == |f.subtasks| - 1
    ensures g.subtasks == f.subtasks[..idx] + f.subtasks[idx + 1..]
  {
    f.(subtasks := RemoveAt(f.subtasks, idx))
  }

  /** "Add Subtask": one blank, unticked row at the end. */
  function AddSubtask(f: CreateForm): (g: CreateForm)
    ensures g.title == f.title && g.content == f.content && g.status == f.status
    ensures |g.subtasks| == |f.subtasks| + 1 && g.subtasks[..|f.subtasks|] == f.subtasks
    ensures g.subtasks[|f.subtasks|] == Subtask("", false)
  {
    f.(subtasks := Append(f.subtasks))
  }

  datatype SubmitOutcome = Rejected(message: string) | Post(body: NoteBody)

  /**
   * `handleSubmit`: no request when the trimmed title or content is empty;
   * otherwise `POST /notes` with title and content as typed (untrimmed), the
   * status, and the normalised subtasks.
   */
  function Submit(f: CreateForm): (o: SubmitOutcome)
    ensures o.Rejected? <==> AllWhitespace(f.title) || AllWhitespace(f.content)
    ensures o.Rejected? ==> o.message == "All fields are required"
    ensures o.Post? ==> o.body == NoteBody(Some(f.title), Some(f.content), Some(f.status), None, Some(Normalize(f.subtasks)))
  {
    TrimEmptyIff(f.title);
    TrimEmptyIff(f.content);
    if Trim(f.title) == "" || Trim(f.content) == "" then Rejected("All fields are required")
    else Post(NoteBody(Some(f.title), Some(f.content), Some(f.status), None, Some(Normalize(f.subtasks))))
  }

  /** The untouched form is never submitted. */
  lemma InitialFormRejected()
    ensures Submit(InitialForm()).Rejected?
  {
  }

  /** Validation trims, the payload does not: surrounding spaces reach the server. */
  lemma TitleSentUntrimmed()
    ensures Submit(CreateForm(" T ", "C", "pending", [])) ==
      Post(NoteBody(Some(" T "), Some("C"), Some("pending"), None, Some([])))
  {
    var f := CreateForm(" T ", "C", "pending", []);
    assert !IsWhitespace('T');
    assert !AllWhitespace(f.title) by { assert f.title[1] == 'T'; }
    assert !AllWhitespace(f.content) by { assert f.content[0] == 'C'; }
  }
}
