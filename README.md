# Task manager: a Dafny model of the notes API and its client logic

The task manager is a small full-stack application. Users register and log in.
Each user keeps private notes ("tasks"): a title, a content, and a status that is
one of `pending`, `in-progress` or `completed`. The Express/Mongoose server scopes
every query to the caller. The React client shows the notes on a dashboard grouped
by status and draws a badge and a progress bar on each card. It lets the user edit
a positional checklist of subtasks, and it cleans that checklist before sending it.

This project models the logic of that system in Dafny and proves properties of it:

- **Server.** The note document and its schema rules are in `NoteModel`. The notes
  controller is the class `NotesController.NoteStore`: its fields are the notes
  collection, the next free id and a clock. Its five handlers read them, and the
  create, update and delete handlers also update them in place. Registration and
  login are the class `AuthController.UserStore`.
- **Client.** The card's progress and badge are in `NoteCard`. The dashboard
  grouping is in `HomePage`. The save and submit guards and the payload
  normaliser are in `NoteDetailPage`, `CreatePage` and `SubtaskEditor`. The
  password check and the error selection of the register form are in
  `RegisterPage`.
- **Shared modules.** `Wire` holds the JSON shapes that cross HTTP. `JsString` holds
  `trim`, `join` and JavaScript truthiness of optional string fields. `Wrappers`
  holds `Option`.
- **Whole system.** `Integration` states end-to-end facts that link the client and
  the server.

The two subtask handlers that copy a list and assign one slot
(`SubtaskEditor.ToggleAt`, `SubtaskEditor.RetitleAt`) work on an array copy, the
way the source does.

## Behaviour of the code that is easy to miss

- **Stored status and subtasks.** `createNote` stores the requested status, or
  `pending`. `updateNote` keeps the stored status unless a truthy one is sent. The
  server never derives a status from subtasks. The Mongoose schema
  has no `subtasks` field, so subtasks the client sends are dropped.
  `Integration.CreatedStatusNotDerived` shows the effect: a new note sent with one
  of two subtasks ticked is stored `pending`, and its card shows 0%.
- **Progress of a partly done checklist.** `Math.round` can push a partly done
  checklist to 0% or 100%. This happens once a note has 200 or more subtasks. With
  1 of 201 ticked the bar shows 0% and the badge says `in-progress`
  (`NoteCard.InProgressCanShowZero`). `NoteCard.PartialPercentBounds` gives the
  exact condition: at least 1% iff 200c >= n, and at most 99% iff 200c < 199n.
- **Check order in update.** `updateNote` looks the note up before it validates the
  status. So an invalid status sent for a note the caller cannot see gets 404, not
  400 (`NotesController.UpdateReply`).
- **Blank titles and content.** Only the client trims. The server accepts a title
  made only of whitespace. An update that sets a title or content to `""` passes
  the controller's own checks. Mongoose's `required` then makes `save` fail, and
  the reply is 500.

## Model

| member | source | states |
|---|---|---|
| JsString.Truthy | backend/src/controllers/notesController.js:30 | Defines JavaScript truthiness of an optional string field, as used by the `!title`, `!content`, `!email` and `!password` checks and by `status &&`: the field is present and not `""`. |
| JsString.TrimStart | frontend/src/pages/CreatePage.jsx:20 | The result is never longer than the input, never starts with whitespace, and is empty exactly when the input is all whitespace. |
| JsString.TrimEnd | frontend/src/pages/CreatePage.jsx:20 | The result is never longer than the input, never ends with whitespace, keeps the first character, and is empty exactly when the input is all whitespace. |
| JsString.Trim | frontend/src/pages/CreatePage.jsx:20 | `trim` leaves a string that neither starts nor ends with whitespace. |
| JsString.TrimEmptyIff | frontend/src/pages/NoteDetailPage.jsx:52 | `s.trim()` is falsy exactly when `s` is all whitespace. Both directions are proved. |
| JsString.TrimStartIsSuffix | frontend/src/pages/CreatePage.jsx:20 | Leading trimming drops exactly an all-whitespace prefix and keeps the rest. |
| JsString.TrimEndIsPrefix | frontend/src/pages/CreatePage.jsx:20 | Trailing trimming drops exactly an all-whitespace suffix and keeps the rest. |
| JsString.TrimIsSlice | frontend/src/pages/CreatePage.jsx:32 | `trim` returns a contiguous slice of the input. Everything before and after that slice is whitespace. |
| JsString.TrimOfTrimmed | frontend/src/pages/NoteDetailPage.jsx:63 | A string with non-whitespace at both ends is its own trim. |
| JsString.TrimIdempotent | frontend/src/pages/NoteDetailPage.jsx:63 | Trimming twice gives the same string as trimming once. |
| JsString.Join | frontend/src/pages/RegisterPage.jsx:39 | `join` of one part is that part and of no parts is `""`. The length is the parts' lengths plus one separator between each pair of neighbours. |
| JsString.JoinAppend | frontend/src/pages/RegisterPage.jsx:39 | Joining two non-empty lists one after the other gives the join of each with one separator between them. So the parts appear in order, and with the one-part case the result is fixed for any number of parts. |
| NoteModel.Valid | backend/src/models/Note.js:8-20 | Defines what the schema lets `save` store: `required` rejects a missing or empty title and content, the owner is always present, and `updatedAt` never precedes `createdAt`. |
| NoteModel.Name | backend/src/models/Note.js:21-25 | Every status is spelled as one of the three enum values. |
| NoteModel.Parse | backend/src/models/Note.js:23 | A string is accepted as a status exactly when it is one of the three enum values. The accepted status is spelled back as that same string. |
| NoteModel.ParseName | backend/src/models/Note.js:23 | Parsing a status's spelling gives back that status (round trip). |
| NoteModel.NameInjective | backend/src/models/Note.js:23 | Different statuses have different spellings. |
| NoteModel.NewNote | backend/src/models/Note.js:6-27 | A new document keeps title, content and owner. A missing status becomes the default `pending`. Both timestamps are set to the save time. Non-empty title and content make the document valid. |
| Wire.ToJson | backend/src/models/Note.js:6-27 | The serialised note carries the document's id, title, content, owner and both timestamps, the status's spelling, and never any subtasks. |
| NotesController.RejectsStatus | backend/src/controllers/notesController.js:64 | Defines the rejection test `status && !allowedStatuses.includes(status)` shared by create (line 34) and update: a truthy status outside the three enum values. |
| NotesController.Matches | backend/src/controllers/notesController.js:82 | Defines the `{ _id: id, user }` filter of `findOne` (lines 16 and 56) and `findOneAndDelete`: both the id and the owner must match. |
| NotesController.RequestedStatus | backend/src/controllers/notesController.js:34 | A status that passed validation asks for no change exactly when it is falsy. Otherwise it is the enum value with that spelling. |
| NotesController.OwnedBy | backend/src/controllers/notesController.js:6 | `find({ user })` returns exactly the caller's notes, in both directions. |
| NotesController.OwnedByKeepsOrder | backend/src/controllers/notesController.js:6 | Filtering an oldest-first collection by owner keeps it oldest-first. |
| NotesController.Reverse | backend/src/controllers/notesController.js:6 | The result holds the same notes at mirrored positions. |
| NotesController.ReverseNewestFirst | backend/src/controllers/notesController.js:6 | Reversing an oldest-first list keeps the same notes and makes it newest-first. |
| NotesController.FindOwned | backend/src/controllers/notesController.js:16 | `findOne({ _id, user })` finds the first note that matches both id and owner. It finds nothing exactly when no note matches. |
| NotesController.OwnedNote | backend/src/controllers/notesController.js:16 | A note is found exactly when some note with that id belongs to the caller, and then it is that note. |
| NotesController.OwnedNoteIsolated | backend/src/controllers/notesController.js:16 | Two stores that hold the same notes for a user answer that user's lookups alike, whatever other users own. |
| NotesController.ForeignNoteIsMissing | backend/src/controllers/notesController.js:16-17 | Another user's note is treated exactly like a missing id. |
| NotesController.CreateReply | backend/src/controllers/notesController.js:25-46 | A falsy title or content gives 400 "Title and content are required". Otherwise a truthy status outside the enum gives 400 "Invalid status value". Otherwise the reply is 201 with a valid note: owned by the caller, stamped with the save time, with the status asked for or `pending`. |
| NotesController.CreateIgnoresOtherFields | backend/src/controllers/notesController.js:27 | Only title, content and status of the body affect creation. A `user` or `subtasks` field in the body changes nothing. |
| NotesController.Merge | backend/src/controllers/notesController.js:68-71 | `??` keeps a field that is absent and takes any field that is present, `""` included. A falsy status keeps the old one. Id, owner and `createdAt` never change, and `updatedAt` is set to the save time. |
| NotesController.MergeIdempotent | backend/src/controllers/notesController.js:68-71 | Applying the same update twice stores the same note as applying it once. |
| NotesController.UpdateReply | backend/src/controllers/notesController.js:53-76 | No matching note gives 404 "Note not found", and this check comes before status validation. A rejected status gives 400. For a valid stored note the update succeeds exactly when it sets neither title nor content to `""`; otherwise `save` fails. Any failure after the note is found and the status accepted is 500 "Internal server error". A success is 200 with the merged note, and that note is valid. |
| NotesController.RemoveMatch | backend/src/controllers/notesController.js:82 | Removing the matching note keeps every other note in order. It removes exactly the notes that match, and ids stay unique and creation order is kept. |
| NotesController.NoteStore.constructor | backend/src/models/Note.js:6-27 | The store starts empty and satisfies its invariant. |
| NotesController.NoteStore.GetAllNotes | backend/src/controllers/notesController.js:4-7 | The reply is 200 with exactly the caller's notes, newest first. |
| NotesController.NoteStore.GetNoteById | backend/src/controllers/notesController.js:14-18 | The reply is 200 with the note exactly when a note matches both id and caller. Otherwise it is 404 "Note not found!", whether the id is unknown or the note is someone else's. |
| NotesController.NoteStore.CreateNote | backend/src/controllers/notesController.js:25-46 | The reply is `CreateReply`. On success exactly the new note is appended. On failure the store is unchanged. The invariant (valid notes, unique ids, creation order) is kept. |
| NotesController.NoteStore.UpdateNote | backend/src/controllers/notesController.js:53-73 | The reply is `UpdateReply` for the caller's matching note. On success exactly that slot is replaced. On failure the store is unchanged. The invariant is kept. |
| NotesController.NoteStore.DeleteNote | backend/src/controllers/notesController.js:80-84 | With no match the reply is 404 and the store is unchanged. Otherwise the reply is 200 "Note deleted successfully!" and exactly the matching note is removed, the others kept in order. Afterwards a note is present iff it was present before and does not match. |
| AuthController.View | backend/src/controllers/authController.js:51-55 | The user object of a reply carries id, username and email, and no password. |
| AuthController.Taken | backend/src/controllers/authController.js:30 | Defines `findOne({ $or: [{ email }, { username }] })` finding someone: some user has that email or that username. |
| AuthController.FindByEmail | backend/src/controllers/authController.js:110 | `findOne({ email })` finds a user with that email. It finds nothing exactly when no user has it. |
| AuthController.LoginReply | backend/src/controllers/authController.js:98-141 | A falsy email or password gives 400 "Email and password are required". When both are present, every failure is the same 401 "Invalid credentials". With distinct emails, login succeeds iff some user has that email and the password matches that user's hash; the reply is then 200 with that user's token and view. |
| AuthController.LoginFailuresIndistinguishable | backend/src/controllers/authController.js:110-127 | An unknown email and a wrong password for a known email get identical replies. |
| AuthController.RegisteredUserCanLogIn | backend/src/controllers/authController.js:39-46 | A user added with a fresh email logs in with its password, when `comparePassword` accepts a password against its own hash. |
| AuthController.RegisterRefusal | backend/src/controllers/authController.js:20-36 | Missing fields are refused exactly when a field is falsy. "User exists" is refused exactly when all fields are present and the email or the username is taken. There is no refusal exactly when all fields are present and neither is taken. |
| AuthController.UserStore.constructor | backend/src/controllers/authController.js:14 | The user table starts empty with the given hash and compare functions. |
| AuthController.UserStore.Register | backend/src/controllers/authController.js:14-56 | A missing field gives 400 (missing fields). An email OR a username already taken gives 400 (user exists). Both failures leave the table unchanged, and every failure is one of these two. Registration succeeds exactly when all fields are present and neither email nor username is taken. Success appends exactly one user with the hashed password and replies 201 with its token and view. Ids, emails and usernames stay distinct. |
| AuthController.UserStore.Login | backend/src/controllers/authController.js:93-141 | The handler's reply is `LoginReply` of the current table. |
| SubtaskEditor.ToggleAt | frontend/src/pages/NoteDetailPage.jsx:151-155 | Only the `completed` flag at `idx` flips. The title and every other entry are kept. |
| SubtaskEditor.RetitleAt | frontend/src/pages/NoteDetailPage.jsx:161-165 | Only the title at `idx` changes. Its flag and every other entry are kept. |
| SubtaskEditor.RemoveAt | frontend/src/pages/NoteDetailPage.jsx:170 | Exactly position `idx` is removed and the rest keep their order. An index outside the list changes nothing. |
| SubtaskEditor.Append | frontend/src/pages/NoteDetailPage.jsx:180 | The list is kept and one blank, unticked entry is added at the end. |
| SubtaskEditor.Clean | frontend/src/pages/NoteDetailPage.jsx:63 | A cleaned entry keeps its flag and has a trimmed title. |
| SubtaskEditor.CleanTrimsTitle | frontend/src/pages/NoteDetailPage.jsx:63 | The cleaned title is exactly `trim` of the row's title, and the flag is unchanged. |
| SubtaskEditor.Normalize | frontend/src/pages/NoteDetailPage.jsx:63 | The payload is never longer than the rows, and every entry in it has a trimmed, non-empty title. |
| SubtaskEditor.Kept | frontend/src/pages/NoteDetailPage.jsx:63 | One row gives at most one clean entry. |
| SubtaskEditor.NormalizeAppend | frontend/src/pages/NoteDetailPage.jsx:63 | The normaliser handles each row on its own: it distributes over concatenation, so row order is kept. |
| SubtaskEditor.NormalizeSingle | frontend/src/pages/NoteDetailPage.jsx:63 | A row is dropped exactly when its title is all whitespace. Otherwise it is kept in clean form. |
| SubtaskEditor.NormalizeMembers | frontend/src/pages/NoteDetailPage.jsx:63 | The payload holds exactly the clean forms of the rows whose titles are not all whitespace. |
| SubtaskEditor.CleanOfClean | frontend/src/pages/NoteDetailPage.jsx:63 | Cleaning an already clean entry leaves it unchanged. |
| SubtaskEditor.NormalizeOfClean | frontend/src/pages/NoteDetailPage.jsx:63 | A list of clean entries is left unchanged. |
| SubtaskEditor.NormalizeIdempotent | frontend/src/pages/NoteDetailPage.jsx:63 | Normalising twice gives the same list as normalising once. |
| SubtaskEditor.WhitespaceTitleDropped | frontend/src/pages/CreatePage.jsx:32 | A ticked row whose title is only spaces is not saved. |
| SubtaskEditor.AppendNotSaved | frontend/src/pages/NoteDetailPage.jsx:180 | Adding a blank row changes nothing that is saved. |
| SubtaskEditor.NormalizeThree | frontend/src/pages/NoteDetailPage.jsx:63 | The payload of three consecutive pieces is the pieces' payloads in order. |
| SubtaskEditor.NormalizeAround | frontend/src/pages/NoteDetailPage.jsx:63 | A list's payload is the payload before row `idx`, then that of row `idx`, then that after it. |
| SubtaskEditor.RemoveAtSaved | frontend/src/pages/NoteDetailPage.jsx:170 | Removing a row removes only what that row contributed to the payload. |
| SubtaskEditor.ToggleKeepsSavedCount | frontend/src/pages/NoteDetailPage.jsx:151-155 | Toggling a row never changes how many entries are saved. |
| NoteCard.SubtasksOf | frontend/src/components/NoteCard.jsx:23 | The subtasks the card works on are the note's own, or none when the field is absent. |
| NoteCard.CompletedCount | frontend/src/components/NoteCard.jsx:25 | The count is at most the list length. It equals the length iff every subtask is done, and is 0 iff none is. |
| NoteCard.CompletedCountAppend | frontend/src/components/NoteCard.jsx:25 | The count adds up over concatenation. |
| NoteCard.CompletedCountSingle | frontend/src/components/NoteCard.jsx:25 | One subtask counts 1 when ticked and 0 otherwise. With the concatenation rule this makes the count the number of ticked subtasks. |
| NoteCard.RoundedPercent | frontend/src/components/NoteCard.jsx:26 | The result is the nearest integer to 100c/n, halves rounded up, as the bounds 2np <= 200c+n < 2n(p+1) state. It lies in 0..100, is 0 when nothing is done and 100 when everything is. |
| NoteCard.PartialPercentBounds | frontend/src/components/NoteCard.jsx:26 | For a partly done list: the bar is at least 1% iff 200c >= n, and at most 99% iff 200c < 199n. |
| NoteCard.ComputeProgress | frontend/src/components/NoteCard.jsx:22-32 | The bar is in 0..100. With subtasks it is the rounded share done. Without subtasks it is 100, 50 or 0 by stored status. |
| NoteCard.DeriveStatus | frontend/src/components/NoteCard.jsx:35-44 | With subtasks: all done gives `completed`, none done gives `pending`, otherwise `in-progress`. Without subtasks it is the stored status, or `pending` when that is falsy. |
| NoteCard.AllDone | frontend/src/components/NoteCard.jsx:22-44 | All subtasks done gives badge `completed` and a 100% bar. |
| NoteCard.NoneDone | frontend/src/components/NoteCard.jsx:22-44 | No subtask done gives badge `pending` and a 0% bar. |
| NoteCard.SomeDone | frontend/src/components/NoteCard.jsx:22-44 | A partly done list gives badge `in-progress`, and a bar strictly between 0 and 100 when it has fewer than 200 subtasks. |
| NoteCard.InProgressCanShowZero | frontend/src/components/NoteCard.jsx:26 | One subtask done out of 201 gives an `in-progress` badge over a 0% bar. |
| NoteCard.StoredStatusIgnored | frontend/src/components/NoteCard.jsx:22-44 | When subtasks are present the stored status affects neither the badge nor the bar. |
| NoteCard.NoSubtasksProgress | frontend/src/components/NoteCard.jsx:29-31 | Without subtasks the bar and the badge agree: 100 iff `completed`, 50 iff `in-progress`, 0 otherwise. |
| NoteCard.RemoveById | frontend/src/components/NoteCard.jsx:53 | After a delete no note with that id is left, and the list never grows. |
| NoteCard.RemoveByIdMembers | frontend/src/components/NoteCard.jsx:53 | The notes kept are exactly the previous notes with another id. |
| NoteCard.RemoveByIdAppend | frontend/src/components/NoteCard.jsx:53 | The delete filter handles each note on its own, so order is kept. |
| NoteCard.RemoveByIdAbsent | frontend/src/components/NoteCard.jsx:53 | A list without that id is unchanged. |
| NoteCard.RemoveByIdBetween | frontend/src/components/NoteCard.jsx:53 | Removing the one note with that id from between two lists without it leaves the two lists joined. |
| NoteCard.RemoveByIdOnce | frontend/src/components/NoteCard.jsx:53 | When the id occurs once, exactly that position is removed. |
| HomePage.WithStatus | frontend/src/pages/HomePage.jsx:40-42 | A group is never longer than the notes, and each of its notes has that stored status. |
| HomePage.Ungrouped | frontend/src/pages/HomePage.jsx:40-42 | The left-over notes have no status or one outside the three values. |
| HomePage.Group | frontend/src/pages/HomePage.jsx:40-42 | Each of the three groups holds only notes with its status. |
| HomePage.WithStatusMembers | frontend/src/pages/HomePage.jsx:40-42 | A group holds exactly the notes whose stored status is its value. |
| HomePage.WithStatusAppend | frontend/src/pages/HomePage.jsx:40-42 | Grouping keeps the fetched order. |
| HomePage.GroupsDisjoint | frontend/src/pages/HomePage.jsx:40-42 | No note appears in two groups. |
| HomePage.GroupSizes | frontend/src/pages/HomePage.jsx:40-42 | The three group sizes plus the left-over notes add up to the number of notes. |
| HomePage.GroupsCover | frontend/src/pages/HomePage.jsx:40-42 | The groups together hold at most all the notes. They hold all of them when every status is one of the three. |
| HomePage.AllGroupedNoneLeft | frontend/src/pages/HomePage.jsx:40-42 | Nothing is left over when every status is one of the three. |
| HomePage.WithStatusIgnoresSubtasks | frontend/src/pages/HomePage.jsx:40-42 | For two note lists that differ only in subtasks, one status filter keeps the same notes at the same positions. |
| HomePage.GroupIgnoresSubtasks | frontend/src/pages/HomePage.jsx:40-42 | For two note lists that differ only in subtasks, each of the three groups holds the same notes in the same order. Grouping depends only on the stored status. |
| NoteDetailPage.Load | frontend/src/pages/NoteDetailPage.jsx:24-26 | The page keeps the fetched note. Its status is the note's status, or `pending` when that is falsy. Its rows are the note's subtasks, or none. |
| NoteDetailPage.Save | frontend/src/pages/NoteDetailPage.jsx:51-64 | The save is refused with "Please add a title or content" exactly when the title or the content is all whitespace. Otherwise it PUTs the note with title and content as typed, its owner field, the selected status and the normalised subtasks. |
| NoteDetailPage.SavedSubtasksClean | frontend/src/pages/NoteDetailPage.jsx:60-64 | Every subtask of a sent payload is clean, and normalising it again changes nothing. |
| CreatePage.InitialForm | frontend/src/pages/CreatePage.jsx:9-12 | The form starts with empty title and content, status `pending` and no subtasks. |
| CreatePage.EditSubtaskTitle | frontend/src/pages/CreatePage.jsx:119-123 | Only the title of row `idx` changes. The rest of the form and the other rows are kept. |
| CreatePage.RemoveSubtask | frontend/src/pages/CreatePage.jsx:128 | Exactly row `idx` is removed and the rest of the form is kept. |
| CreatePage.AddSubtask | frontend/src/pages/CreatePage.jsx:138 | One blank, unticked row is added at the end and the rest is kept. |
| CreatePage.Submit | frontend/src/pages/CreatePage.jsx:20-33 | Submission is refused with "All fields are required" exactly when the title or the content is all whitespace. Otherwise it POSTs title and content untrimmed, with the status and the normalised subtasks. |
| CreatePage.InitialFormRejected | frontend/src/pages/CreatePage.jsx:9-23 | The untouched form is never submitted. |
| CreatePage.TitleSentUntrimmed | frontend/src/pages/CreatePage.jsx:20-33 | The check trims but the payload does not, so `" T "` is sent as typed. |
| RegisterPage.OnSubmit | frontend/src/pages/RegisterPage.jsx:26-32 | The password-length error is shown, and `register` is not called, exactly when the password has fewer than 6 characters. Otherwise the form's fields are sent unchanged. |
| RegisterPage.FailureMessage | frontend/src/pages/RegisterPage.jsx:36-47 | An `errors` array is shown joined by the separator (space, vertical bar, space). Otherwise a truthy `message` is shown. Otherwise the message is "Registration failed". |
| RegisterPage.ErrorsBeforeMessage | frontend/src/pages/RegisterPage.jsx:38-44 | When `errors` is present, `message` is never shown. |
| RegisterPage.ErrorsShownInOrder | frontend/src/pages/RegisterPage.jsx:38-39 | The shown message for an errors list is the message for its first part, the separator, then the message for its second part, for any split. So errors are shown in server order. |
| RegisterPage.TwoErrorsJoined | frontend/src/pages/RegisterPage.jsx:39 | Two errors are shown as the first, the separator, then the second. |
| Integration.StoredNoteShownByStatus | frontend/src/components/NoteCard.jsx:22-44 | For any stored note the card shows the stored status and its mapped percentage, and the edit page opens with that status and no subtask rows. |
| Integration.SubmittedFormIsCreated | backend/src/controllers/notesController.js:25-46 | Any form the create page sends with a status from its select is accepted with 201, owned by the caller, with the typed title and content and the selected status. |
| Integration.CreatedStatusNotDerived | backend/src/controllers/notesController.js:38-43 | A new note with one of two subtasks ticked is stored `pending`, and its card shows `pending` at 0%. |
| Integration.SavedStateIsUpdated | backend/src/controllers/notesController.js:53-73 | Any save the edit page lets through is accepted for the owner's valid note: title and content as typed, status as selected. The owner stays the same whatever `user` the payload carries. |
| Integration.CompletingWithoutSubtasks | backend/src/controllers/notesController.js:68-73 | Setting status `completed` on a note without subtasks stores `completed`, and the card shows 100%. |
| Integration.ServerNotesAllGrouped | frontend/src/pages/HomePage.jsx:40-42 | Every note the server lists lands in one of the dashboard's three groups. |
| Integration.RegisterRefusalShown | frontend/src/pages/RegisterPage.jsx:42-44 | Each of the two 400 refusals of the server's `register` handler carries only a message, and the register page shows that message word for word. |
| Integration.CheckedPasswordIsPresent | backend/src/controllers/authController.js:20-36 | A form the register page sends, with username and email filled in, is never refused for a missing field. When neither is taken it is not refused at all. |

## Left out

- HTTP routing, the auth middleware and JWT signing and verification are not modelled. The caller's user id is a parameter of every notes handler, and a token is the user id it carries. The 30-day expiry is not modelled.
- Password hashing and `comparePassword` belong to the User model, which is not part of this model. They are taken as given functions (`hash`, `matches`) of `AuthController.UserStore`.
- The User model's schema validation (a Mongoose `ValidationError` mapped to 400 with `errors`) is not part of this model, because the User model file is not.
- `AuthController.UserStore.Register`: the 409 reply on a duplicate key is not modelled. It needs two concurrent registrations to race past the uniqueness check. Concurrency is outside the model.
- Every 500 reply that comes from a failing database or an exception (on find, save or delete, and for a malformed id that Mongoose cannot cast) is left out. The store never fails. The one 500 that is modelled is the schema rejection of `""` in `updateNote`.
- `NotesController.NoteStore.UpdateNote`: `updatedAt` is always advanced. Mongoose skips the stamp when nothing changed. The simplification is made because the model has no dirty tracking.
- Non-string JSON values in request bodies, for example a number as title, are not modelled. Fields are absent or strings, and a status that is not a string is treated as absent or as a string.
- `NoteCard.RoundedPercent`: `Math.round` on the floating-point value `(c / n) * 100` is modelled as exact rounding of the rational 100c/n, halves up. Floating-point error is not modelled.
- `RegisterPage.OnSubmit`: `.length` counts UTF-16 code units. The model counts code points, so a password with characters outside the Basic Multilingual Plane is measured shorter than JavaScript measures it.
- `SubtaskEditor.Clean`: `s.title?.trim() || ''` and `!!s.completed` are modelled for subtask titles that are strings and flags that are booleans. Those are the only values the editors create. A fetched subtask with a missing title is not modelled.
- `RegisterPage.FailureMessage`: an `errors` field that is not an array is modelled as absent, because the source's `Array.isArray` check then skips it.
- The UI is not modelled: rendering, toasts, `window.confirm`, navigation, loading flags and the HTML `required` attributes of the register form. The login page and the API client setup are not modelled either.
- The delete handlers of the card and of the edit page: the server side is `NotesController.NoteStore.DeleteNote` and the list update is `NoteCard.RemoveById`. The request itself is I/O.
- The create page's subtask edits reuse the detail page's code (`SubtaskEditor`). The create page has no checkbox: its rows are only retitled, removed and added.
- The sort in `getAllNotes` is modelled as reversing a collection that is kept in creation order by a monotonic clock. Two notes created at the same instant, which would need an order Mongoose does not specify, do not arise in the model.
