/**
 * The edit page of one note (frontend/src/pages/NoteDetailPage.jsx): the
 * state loaded from `GET /notes/:id` and the save handler's guard and
 * payload. Its subtask edits are those of module SubtaskEditor.
 */
module NoteDetailPage {
  import opened Wrappers
  import opened JsString
  import opened NoteModel
  import opened Wire
  import opened SubtaskEditor

  /** The page state: the fetched note as edited, the status select and the subtask rows. */
  datatype DetailState = DetailState(routeId: NoteId, note: NoteJson, status: string, subtasks: seq<Subtask>)

  /** `setNote(res.data)`, `setStatus(res.data.status || 'pending')`, `setSubtasks(res.data.subtasks || [])`. */
  function Load(routeId: NoteId, res: NoteJson): (st: DetailState)
    ensures st.routeId == routeId && st.note == res
    ensures Truthy(res.status) ==> st.status == res.status.value
    ensures !Truthy(res.status) ==> st.status == "pending"
    ensures res.subtasks.None? ==> st.subtasks == []
    ensures res.subtasks.Some? ==> st.subtasks == res.subtasks.value
  {
    DetailState(routeId, res, if Truthy(res.status) then res.status.value else "pending", res.subtasks.GetOr([]))
  }

  datatype SaveOutcome = Rejected(message: string) | Put(id: NoteId, body: NoteBody)

  /**
   * `handleSave`: no request when the trimmed title or trimmed content is
   * empty; otherwise `PUT /notes/:id` with `{ ...note, status, subtasks }`,
   * title and content as typed and the subtasks normalised.
   */
  function Save(st: DetailState): (o: SaveOutcome)
    ensures o.Rejected? <==> AllWhitespace(st.note.title) || AllWhitespace(st.note.content)
    ensures o.Rejected? ==> o.message == "Please add a title or content"
    ensures o.Put? ==> (o.id == st.routeId
      && o.body.title == Some(st.note.title) && o.body.content == Some(st.note.content)
      && o.body.status == Some(st.status) && o.body.user == Some(st.note.user)
      && o.body.subtasks == Some(Normalize(st.subtasks)))
  {
    TrimEmptyIff(st.note.title);
    TrimEmptyIff(st.note.content);
    if Trim(st.note.title) == "" || Trim(st.note.content) == "" then Rejected("Please add a title or content")
    else Put(st.routeId, NoteBody(Some(st.note.title), Some(st.note.content), Some(st.status),
                                  Some(st.note.user), Some(Normalize(st.subtasks))))
  }

  /** Every subtask of a sent payload is clean, and normalising it again changes nothing. */
  lemma SavedSubtasksClean(st: DetailState)
    requires Save(st).Put?
    ensures var subs := Save(st).body.subtasks.value;
      (forall k :: 0 <= k < |subs| ==> IsClean(subs[k])) && Normalize(subs) == subs
  {
    NormalizeIdempotent(st.subtasks);
  }
}
