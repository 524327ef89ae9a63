/**
 * The stored note document of the server (the Mongoose schema of
 * backend/src/models/Note.js): required title, content and owning user, a
 * status restricted to three values with `pending` as default, and the
 * `createdAt` / `updatedAt` timestamps the schema adds.
 */
module NoteModel {
  import opened Wrappers

  type UserId = nat
  type NoteId = nat

  /** The status enum; the type itself makes any other value unrepresentable. */
  datatype Status = Pending | InProgress | Completed

  /** The wire spelling of each status value, in the schema's order. */
  const StatusValues: seq<string> := ["pending", "in-progress", "completed"]

  /** The schema default for `status`. */
  const DefaultStatus: Status := Pending

  function Name(st: Status): (r: string)
    ensures r in StatusValues
  {
    match st
    case Pending => "pending"
    case InProgress => "in-progress"
    case Completed => "completed"
  }

  /** Reads a wire status; only the three enum spellings are accepted. */
  function Parse(s: string): (r: Option<Status>)
    ensures r.Some? <==> s in StatusValues
    ensures r.Some? ==> Name(r.value) == s
  {
    if s == "pending" then Some(Pending)
    else if s == "in-progress" then Some(InProgress)
    else if s == "completed" then Some(Completed)
    else None
  }

  /** `Name` and `Parse` are inverse on the enum. */
  lemma ParseName(st: Status)
    ensures Parse(Name(st)) == Some(st)
  {
  }

  /** `Name` is injective: distinct statuses have distinct spellings. */
  lemma NameInjective(a: Status, b: Status)
    requires Name(a) == Name(b)
    ensures a == b
  {
  }

  /** A stored note document. `user` is the owner's id; the schema has no subtasks. */
  datatype Note = Note(
    id: NoteId,
    title: string,
    content: string,
    user: UserId,
    status: Status,
    createdAt: nat,
    updatedAt: nat)

  /**
   * What the schema lets `save` store: Mongoose's `required` rejects a missing
   * and an empty string, the owner is required (always present in this
   * model); `updatedAt` never precedes `createdAt`.
   */
  predicate Valid(n: Note) {
    n.title != "" && n.content != "" && n.createdAt <= n.updatedAt
  }

  /** The document `new Note({...})` builds, with the status default applied and both timestamps set to `now`. */
  function NewNote(id: NoteId, title: string, content: string, user: UserId, status: Option<Status>, now: nat): (n: Note)
    ensures n.id == id && n.title == title && n.content == content && n.user == user
    ensures status.None? ==> n.status == DefaultStatus
    ensures status.Some? ==> n.status == status.value
    ensures n.createdAt == now && n.updatedAt == now
    ensures title != "" && content != "" ==> Valid(n)
  {
    Note(id, title, content, user, status.GetOr(DefaultStatus), now, now)
  }
}
