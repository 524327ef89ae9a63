/**
 * The JSON that crosses the HTTP boundary between the client pages and the
 * notes controller: the body of `POST /notes` and `PUT /notes/:id`, the note
 * objects the server returns, and the subtask records the client edits.
 */
module Wire {
  import opened Wrappers
  import opened NoteModel

  /** A checklist item as the client holds it: identity is its position in the list. */
  datatype Subtask = Subtask(title: string, completed: bool)

  /**
   * A note request body. The controller destructures only `title`, `content`
   * and `status`; `user` and `subtasks` stand for the other fields a client
   * may send (the spread note of the detail page carries `user`).
   */
  datatype NoteBody = NoteBody(
    title: Option<string>,
    content: Option<string>,
    status: Option<string>,
    user: Option<UserId>,
    subtasks: Option<seq<Subtask>>)

  /** A note object as the client receives and holds it (`res.data`). */
  datatype NoteJson = NoteJson(
    id: NoteId,
    title: string,
    content: string,
    user: UserId,
    status: Option<string>,
    subtasks: Option<seq<Subtask>>,
    createdAt: nat,
    updatedAt: nat)

  /** `res.json(note)`: the serialised document. The schema has no subtasks, so none are sent. */
  function ToJson(n: Note): (j: NoteJson)
    ensures j.id == n.id && j.title == n.title && j.content == n.content && j.user == n.user
    ensures j.status == Some(Name(n.status))
    ensures j.createdAt == n.createdAt && j.updatedAt == n.updatedAt
    ensures j.subtasks.None?
  {
    NoteJson(n.id, n.title, n.content, n.user, Some(Name(n.status)), None, n.createdAt, n.updatedAt)
  }
}
