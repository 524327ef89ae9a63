/**
 * The notes controller (backend/src/controllers/notesController.js) over an
 * in-memory store that stands in for the MongoDB collection. Every query is
 * scoped to the caller, the authenticated user id that the auth middleware
 * puts on the request; a note is found only when both its id and its owner match.
 */
module NotesController {
  import opened Wrappers
  import opened JsString
  import opened NoteModel
  import opened Wire

  /** An HTTP reply: a success status with its JSON value, or an error status with its message. */
  datatype Reply<T> = Ok(code: nat, value: T) | Err(code: nat, message: string)

  /** `status && !allowedStatuses.includes(status)`: a truthy status outside the enum. */
  predicate RejectsStatus(status: Option<string>) {
    Truthy(status) && status.value !in StatusValues
  }

  /** The status a body asks for once it has passed validation: none when the field is falsy. */
  function RequestedStatus(status: Option<string>): (r: Option<Status>)
    requires !RejectsStatus(status)
    ensures r.None? <==> !Truthy(status)
    ensures r.Some? ==> Name(r.value) == status.value
  {
    if Truthy(status) then Parse(status.value) else None
  }

  /** The `{ _id: id, user: caller }` filter of `findOne`, `findOneAndDelete`. */
  predicate Matches(n: Note, id: NoteId, user: UserId) {
    n.id == id && n.user == user
  }

  predicate UniqueIds(notes: seq<Note>) {
    forall i, j :: 0 <= i < j < |notes| ==> notes[i].id != notes[j].id
  }

  /** Strictly increasing `createdAt`: the insertion order of a store with a monotonic clock. */
  predicate OldestFirst(notes: seq<Note>) {
    forall i, j :: 0 <= i < j < |notes| ==> notes[i].createdAt < notes[j].createdAt
  }

  /** The order of `.sort({ createdAt: -1 })`. */
  predicate NewestFirst(notes: seq<Note>) {
    forall i, j :: 0 <= i < j < |notes| ==> notes[i].createdAt > notes[j].createdAt
  }

  /** `find({ user })`: the caller's notes, in store order. */
  function OwnedBy(notes: seq<Note>, user: UserId): (r: seq<Note>)
    ensures forall n :: n in r <==> n in notes && n.user == user
    ensures |r| <= |notes|
  {
    if notes == [] then []
    else (if notes[0].user == user then [notes[0]] else []) + OwnedBy(notes[1..], user)
  }

  lemma {:induction false} OwnedByKeepsOrder(notes: seq<Note>, user: UserId)
    requires OldestFirst(notes)
    ensures OldestFirst(OwnedBy(notes, user))
  {
    if notes != [] {
      OwnedByKeepsOrder(notes[1..], user);
      var rest := OwnedBy(notes[1..], user);
      forall n | n in rest ensures notes[0].createdAt < n.createdAt {
        var k :| 0 <= k < |notes[1..]| && notes[1..][k] == n;
        assert notes[k + 1] == n;
      }
    }
  }

  function Reverse(s: seq<Note>): (r: seq<Note>)
    ensures |r| == |s|
    ensures forall i :: 0 <= i < |s| ==> r[i] == s[|s| - 1 - i]
  {
    if s == [] then [] else Reverse(s[1..]) + [s[0]]
  }

  /** Reversing an oldest-first list gives the same notes newest first. */
  lemma ReverseNewestFirst(s: seq<Note>)
    requires OldestFirst(s)
    ensures forall n :: n in Reverse(s) <==> n in s
    ensures NewestFirst(Reverse(s))
  {
    var r := Reverse(s);
    forall n | n in s ensures n in r {
      var k :| 0 <= k < |s| && s[k] == n;
      assert r[|s| - 1 - k] == n;
    }
  }

  /** Index of the note `findOne({ _id: id, user })` returns: the first match, if any. */
  function FindOwned(notes: seq<Note>, id: NoteId, user: UserId): (r: Option<nat>)
    ensures r.Some? ==> r.value < |notes| && Matches(notes[r.value], id, user)
    ensures r.Some? ==> forall j :: 0 <= j < r.value ==> !Matches(notes[j], id, user)
    ensures r.None? <==> forall j :: 0 <= j < |notes| ==> !Matches(notes[j], id, user)
  {
    if notes == [] then None
    else if Matches(notes[0], id, user) then Some(0)
    else match FindOwned(notes[1..], id, user)
      case None => None
      case Some(k) => Some(k + 1)
  }

  /** The document `findOne({ _id: id, user })` resolves to. */
  function OwnedNote(notes: seq<Note>, id: NoteId, user: UserId): (r: Option<Note>)
    ensures r.Some? <==> exists n :: n in notes && Matches(n, id, user)
    ensures r.Some? ==> r.value in notes && Matches(r.value, id, user)
  {
    match FindOwned(notes, id, user)
    case None => None
    case Some(i) => Some(notes[i])
  }

  /**
   * Isolation: what a caller can find depends only on the caller's own notes.
   * Two stores that hold the same notes of `user` answer every lookup of
   * `user` alike, whatever other users own.
   */
  lemma OwnedNoteIsolated(a: seq<Note>, b: seq<Note>, id: NoteId, user: UserId)
    requires UniqueIds(a) && UniqueIds(b)
    requires OwnedBy(a, user) == OwnedBy(b, user)
    ensures OwnedNote(a, id, user) == OwnedNote(b, id, user)
  {
    var ra, rb := OwnedNote(a, id, user), OwnedNote(b, id, user);
    if ra.Some? {
      assert ra.value in OwnedBy(b, user);
      var i :| 0 <= i < |b| && b[i] == ra.value;
      var j :| 0 <= j < |b| && b[j] == rb.value;
      assert i == j;
    }
  }

  /** A note of another owner answers the caller exactly as a missing id does. */
  lemma ForeignNoteIsMissing(notes: seq<Note>, k: nat, user: UserId)
    requires UniqueIds(notes) && k < |notes| && notes[k].user != user
    ensures OwnedNote(notes, notes[k].id, user) == None
  {
    if OwnedNote(notes, notes[k].id, user).Some? {
      var n := OwnedNote(notes, notes[k].id, user).value;
      var i :| 0 <= i < |notes| && notes[i] == n;
    }
  }

  /**
   * The reply of `createNote` and the document it saves for a request made by
   * `caller`, with `id` and `now` supplied by the store.
   */
  function CreateReply(body: NoteBody, caller: UserId, id: NoteId, now: nat): (r: Reply<Note>)
    ensures !Truthy(body.title) || !Truthy(body.content) ==>
      r == Err(400, "Title and content are required")
    ensures Truthy(body.title) && Truthy(body.content) && RejectsStatus(body.status) ==>
      r == Err(400, "Invalid status value")
    ensures r.Ok? <==> Truthy(body.title) && Truthy(body.content) && !RejectsStatus(body.status)
    ensures r.Ok? ==> (r.code == 201 && Valid(r.value)
      && r.value.id == id && r.value.user == caller
      && r.value.title == body.title.value && r.value.content == body.content.value
      && r.value.createdAt == now && r.value.updatedAt == now
      && (Truthy(body.status) ==> Name(r.value.status) == body.status.value)
      && (!Truthy(body.status) ==> r.value.status == Pending))
  {
    if !Truthy(body.title) || !Truthy(body.content) then Err(400, "Title and content are required")
    else if RejectsStatus(body.status) then Err(400, "Invalid status value")
    else Ok(201, NewNote(id, body.title.value, body.content.value, caller, RequestedStatus(body.status), now))
  }

  /** Fields other than title, content and status, an owner among them, never reach the stored note. */
  lemma CreateIgnoresOtherFields(b1: NoteBody, b2: NoteBody, caller: UserId, id: NoteId, now: nat)
    requires b1.title == b2.title && b1.content == b2.content && b1.status == b2.status
    ensures CreateReply(b1, caller, id, now) == CreateReply(b2, caller, id, now)
  {
  }

  /**
   * The in-place assignments of `updateNote`: `title ?? note.title`,
   * `content ?? note.content`, `if (status) note.status = status`, and the
   * `updatedAt` stamp of `save`.
   */
  function Merge(n: Note, body: NoteBody, now: nat): (m: Note)
    requires !RejectsStatus(body.status)
    ensures m.id == n.id && m.user == n.user && m.createdAt == n.createdAt && m.updatedAt == now
    ensures body.title.None? ==> m.title == n.title
    ensures body.title.Some? ==> m.title == body.title.value
    ensures body.content.None? ==> m.content == n.content
    ensures body.content.Some? ==> m.content == body.content.value
    ensures !Truthy(body.status) ==> m.status == n.status
    ensures Truthy(body.status) ==> Name(m.status) == body.status.value
  {
    var status := RequestedStatus(body.status);
    n.(title := body.title.GetOr(n.title),
       content := body.content.GetOr(n.content),
       status := status.GetOr(n.status),
       updatedAt := now)
  }

  /** Applying the same update twice stores the same note as applying it once. */
  lemma MergeIdempotent(n: Note, body: NoteBody, now: nat)
    requires !RejectsStatus(body.status)
    ensures Merge(Merge(n, body, now), body, now) == Merge(n, body, now)
  {
  }

  /**
   * The reply of `updateNote` given the caller's matching note, if any: 404
   * before status validation, 400 for a rejected status, and 500 when `save`
   * fails the schema because a title or content was set to `""`.
   */
  function UpdateReply(found: Option<Note>, body: NoteBody, now: nat): (r: Reply<Note>)
    ensures found.None? ==> r == Err(404, "Note not found")
    ensures found.Some? && RejectsStatus(body.status) ==> r == Err(400, "Invalid status value")
    ensures r.Ok? ==> (found.Some? && !RejectsStatus(body.status)
      && r == Ok(200, Merge(found.value, body, now)))
    ensures (found.Some? && Valid(found.value) && found.value.updatedAt <= now
      && !RejectsStatus(body.status)) ==>
      (r.Ok? <==> body.title != Some("") && body.content != Some(""))
    ensures r.Ok? ==> Valid(r.value) || !Valid(found.value) || found.value.updatedAt > now
    ensures found.Some? && !RejectsStatus(body.status) && !r.Ok? ==> r == Err(500, "Internal server error")
  {
    if found.None? then Err(404, "Note not found")
    else if RejectsStatus(body.status) then Err(400, "Invalid status value")
    else
      var m := Merge(found.value, body, now);
      if m.title == "" || m.content == "" then Err(500, "Internal server error")
      else Ok(200, m)
  }

  /** Removing the one note that matches `(id, user)` keeps every other note, in order. */
  lemma RemoveMatch(s: seq<Note>, i: nat, id: NoteId, user: UserId)
    requires i < |s| && UniqueIds(s) && Matches(s[i], id, user)
    ensures var t := s[..i] + s[i + 1..];
      && |t| == |s| - 1
      && (forall k :: 0 <= k < |t| ==> t[k] == s[if k < i then k else k + 1])
      && (forall n :: n in t <==> n in s && !Matches(n, id, user))
      && UniqueIds(t)
      && (OldestFirst(s) ==> OldestFirst(t))
  {
    var t := s[..i] + s[i + 1..];
    assert forall k :: 0 <= k < |t| ==> t[k] == s[if k < i then k else k + 1];
    forall n | n in s && !Matches(n, id, user) ensures n in t {
      var k :| 0 <= k < |s| && s[k] == n;
      assert t[if k < i then k else k - 1] == n;
    }
  }

  /** The store: the notes collection, the next free id and a clock for the timestamps. */
  class NoteStore {
    var notes: seq<Note>
    var nextId: NoteId
    var clock: nat

    ghost predicate Valid()
      reads this
    {
      && (forall i :: 0 <= i < |notes| ==>
            NoteModel.Valid(notes[i]) && notes[i].id < nextId && notes[i].updatedAt < clock)
      && UniqueIds(notes)
      && OldestFirst(notes)
    }

    constructor ()
      ensures Valid() && notes == [] && nextId == 0 && clock == 0
    {
      notes, nextId, clock := [], 0, 0;
    }

    /** `getAllNotes`: exactly the caller's notes, newest first. */
    method GetAllNotes(caller: UserId) returns (r: Reply<seq<Note>>)
      requires Valid()
      ensures r.Ok? && r.code == 200
      ensures forall n :: n in r.value <==> n in notes && n.user == caller
      ensures NewestFirst(r.value)
    {
      var mine := OwnedBy(notes, caller);
      OwnedByKeepsOrder(notes, caller);
      ReverseNewestFirst(mine);
      r := Ok(200, Reverse(mine));
    }

    /** `getNoteById`: the note matching both id and owner, otherwise 404 whatever the cause. */
    method GetNoteById(caller: UserId, id: NoteId) returns (r: Reply<Note>)
      ensures r.Ok? <==> exists n :: n in notes && Matches(n, id, caller)
      ensures r.Ok? ==> r.code == 200 && r.value in notes && Matches(r.value, id, caller)
      ensures r.Err? ==> r == Err(404, "Note not found!")
    {
      var found := OwnedNote(notes, id, caller);
      if found.None? {
        return Err(404, "Note not found!");
      }
      r := Ok(200, found.value);
    }

    /** `createNote`: validates, then saves one new note owned by the caller. */
    method CreateNote(caller: UserId, body: NoteBody) returns (r: Reply<Note>)
      requires Valid()
      modifies this
      ensures Valid()
      ensures r == CreateReply(body, caller, old(nextId), old(clock))
      ensures r.Err? ==> notes == old(notes) && nextId == old(nextId) && clock == old(clock)
      ensures r.Ok? ==> (notes == old(notes) + [r.value]
        && nextId == old(nextId) + 1 && clock == old(clock) + 1)
    {
      r := CreateReply(body, caller, nextId, clock);
      if r.Ok? {
        notes := notes + [r.value];
        nextId, clock := nextId + 1, clock + 1;
      }
    }

    /** `updateNote`: finds the caller's note, validates the status, merges the fields in place and saves. */
    method UpdateNote(caller: UserId, id: NoteId, body: NoteBody) returns (r: Reply<Note>)
      requires Valid()
      modifies this
      ensures Valid()
      ensures r == UpdateReply(OwnedNote(old(notes), id, caller), body, old(clock))
      ensures r.Ok? ==> (notes == old(notes)[FindOwned(old(notes), id, caller).value := r.value]
        && clock == old(clock) + 1)
      ensures r.Err? ==> notes == old(notes) && clock == old(clock)
      ensures nextId == old(nextId)
    {
      var i := FindOwned(notes, id, caller);
      r := UpdateReply(OwnedNote(notes, id, caller), body, clock);
      if r.Ok? {
        notes := notes[i.value := r.value];
        clock := clock + 1;
      }
    }

    /** `deleteNote`: removes the caller's note with that id and nothing else. */
    method DeleteNote(caller: UserId, id: NoteId) returns (r: Reply<string>)
      requires Valid()
      modifies this
      ensures Valid()
      ensures FindOwned(old(notes), id, caller).None? ==>
        r == Err(404, "Note not found") && notes == old(notes)
      ensures FindOwned(old(notes), id, caller).Some? ==>
        var i := FindOwned(old(notes), id, caller).value;
        r == Ok(200, "Note deleted successfully!") && notes == old(notes)[..i] + old(notes)[i + 1..]
      ensures forall n :: n in notes <==> n in old(notes) && !Matches(n, id, caller)
      ensures nextId == old(nextId) && clock == old(clock)
    {
      var found := FindOwned(notes, id, caller);
      if found.None? {
        return Err(404, "Note not found");
      }
      var i := found.value;
      RemoveMatch(notes, i, id, caller);
      notes := notes[..i] + notes[i + 1..];
      r := Ok(200, "Note deleted successfully!");
    }
  }
}
