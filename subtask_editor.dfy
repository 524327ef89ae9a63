/**
 * The subtask list editing shared by the detail page and the create page
 * (frontend/src/pages/NoteDetailPage.jsx, frontend/src/pages/CreatePage.jsx):
 * positional toggle, retitle, remove and append, and the normaliser that
 * builds the `subtasks` field of the saved payload.
 */
module SubtaskEditor {
  import opened JsString
  import opened Wire

  /** The entry "Add Subtask" appends: `{ title: '', completed: false }`. */
  const Blank: Subtask := Subtask("", false)

  /**
   * The checkbox handler: copy the list, replace `copy[idx]` by the same entry
   * with `completed` flipped, and hand the copy to `setSubtasks`.
   */
  method ToggleAt(subtasks: seq<Subtask>, idx: nat) returns (next: seq<Subtask>)
    requires idx < |subtasks|
    ensures |next| == |subtasks|
    ensures next[idx].title == subtasks[idx].title
    ensures next[idx].completed == !subtasks[idx].completed
    ensures forall i :: 0 <= i < |subtasks| && i != idx ==> next[i] == subtasks[i]
  {
    var copy := new Subtask[|subtasks|](i requires 0 <= i < |subtasks| => subtasks[i]);
    copy[idx] := copy[idx].(completed := !copy[idx].completed);
    next := copy[..];
  }

  /** The title input handler: the same copy-and-assign, replacing only the title at `idx`. */
  method RetitleAt(subtasks: seq<Subtask>, idx: nat, title: string) returns (next: seq<Subtask>)
    requires idx < |subtasks|
    ensures |next| == |subtasks|
    ensures next[idx].title == title && next[idx].completed == subtasks[idx].completed
    ensures forall i :: 0 <= i < |subtasks| && i != idx ==> next[i] == subtasks[i]
  {
    var copy := new Subtask[|subtasks|](i requires 0 <= i < |subtasks| => subtasks[i]);
    copy[idx] := copy[idx].(title := title);
    next := copy[..];
  }

  /**
   * The remove button: `prev.filter((_, i) => i !== idx)`. It drops exactly
   * position `idx` when that is a position of the list, and nothing otherwise.
   */
  function RemoveAt(prev: seq<Subtask>, idx: int): (r: seq<Subtask>)
    ensures 0 <= idx < |prev| ==> r == prev[..idx] + prev[idx + 1..]
    ensures !(0 <= idx < |prev|) ==> r == prev
  {
    if prev == [] then []
    else
      var last := |prev| - 1;
      RemoveAt(prev[..last], idx) + (if last != idx then [prev[last]] else [])
  }

  /** The add button: `[...prev, { title: '', completed: false }]`. */
  function Append(prev: seq<Subtask>): (r: seq<Subtask>)
    ensures |r| == |prev| + 1 && r[..|prev|] == prev && r[|prev|] == Blank
  {
    prev + [Blank]
  }

  /** One entry of the payload map: `{ title: s.title.trim(), completed: !!s.completed }`. */
  function Clean(s: Subtask): (c: Subtask)
    ensures c.completed == s.completed && IsTrimmed(c.title)
  {
    Subtask(Trim(s.title), s.completed)
  }

  /** The cleaned title is the row's title with `trim` applied, and the flag stays as it was. */
  lemma CleanTrimsTitle(s: Subtask)
    ensures Clean(s).title == Trim(s.title) && Clean(s).completed == s.completed
  {
  }

  /** An entry the payload keeps: its title is trimmed and not empty. */
  predicate IsClean(s: Subtask) {
    s.title != "" && IsTrimmed(s.title)
  }

  /**
   * The payload normaliser: `.map(Clean).filter(s => s.title)`. Every entry
   * left has a trimmed, non-empty title.
   */
  function Normalize(subtasks: seq<Subtask>): (r: seq<Subtask>)
    ensures |r| <= |subtasks|
    ensures forall k :: 0 <= k < |r| ==> IsClean(r[k])
  {
    if subtasks == [] then [] else Kept(subtasks[0]) + Normalize(subtasks[1..])
  }

  /** What one entry contributes to the payload: its clean form, or nothing when the trimmed title is empty. */
  function Kept(s: Subtask): (r: seq<Subtask>)
    ensures |r| <= 1
    ensures forall k :: 0 <= k < |r| ==> IsClean(r[k])
  {
    var c := Clean(s);
    if c.title != "" then [c] else []
  }

  /** The normaliser works entry by entry: it distributes over concatenation, which is why order is kept. */
  lemma {:induction false} NormalizeAppend(a: seq<Subtask>, b: seq<Subtask>)
    ensures Normalize(a + b) == Normalize(a) + Normalize(b)
  {
    if a == [] {
      assert a + b == b;
    } else {
      assert (a + b)[0] == a[0];
      assert (a + b)[1..] == a[1..] + b;
      NormalizeAppend(a[1..], b);
      assert Normalize(a + b) == Kept(a[0]) + Normalize(a[1..] + b);
    }
  }

  /** On one entry it keeps the cleaned entry exactly when the trimmed title is not empty. */
  lemma NormalizeSingle(s: Subtask)
    ensures AllWhitespace(s.title) ==> Normalize([s]) == []
    ensures !AllWhitespace(s.title) ==> Normalize([s]) == [Clean(s)]
  {
    assert [s][1..] == [];
    TrimEmptyIff(s.title);
  }

  /** Nothing is lost but blank titles: every kept entry is the clean form of an input entry, and vice versa. */
  lemma {:induction false} NormalizeMembers(subtasks: seq<Subtask>)
    ensures forall c :: c in Normalize(subtasks) <==>
      exists s :: s in subtasks && !AllWhitespace(s.title) && c == Clean(s)
  {
    if subtasks != [] {
      TrimEmptyIff(subtasks[0].title);
      NormalizeMembers(subtasks[1..]);
      assert forall s :: s in subtasks <==> s == subtasks[0] || s in subtasks[1..];
    }
  }

  /** An already clean entry is its own clean form. */
  lemma CleanOfClean(s: Subtask)
    requires IsClean(s)
    ensures Clean(s) == s
  {
    TrimOfTrimmed(s.title);
  }

  /** The normaliser leaves a clean list unchanged. */
  lemma {:induction false} NormalizeOfClean(subtasks: seq<Subtask>)
    requires forall k :: 0 <= k < |subtasks| ==> IsClean(subtasks[k])
    ensures Normalize(subtasks) == subtasks
  {
    if subtasks != [] {
      CleanOfClean(subtasks[0]);
      NormalizeOfClean(subtasks[1..]);
    }
  }

  /** The normaliser is idempotent. */
  lemma NormalizeIdempotent(subtasks: seq<Subtask>)
    ensures Normalize(Normalize(subtasks)) == Normalize(subtasks)
  {
    NormalizeOfClean(Normalize(subtasks));
  }

  /** A ticked row whose title is only spaces is not saved. */
  lemma WhitespaceTitleDropped()
    ensures Normalize([Subtask("  ", true)]) == []
  {
    NormalizeSingle(Subtask("  ", true));
  }

  /** Appending a blank row changes nothing that is saved. */
  lemma AppendNotSaved(prev: seq<Subtask>)
    ensures Normalize(Append(prev)) == Normalize(prev)
  {
    NormalizeAppend(prev, [Blank]);
    NormalizeSingle(Blank);
  }

  /** A list is the rows before `idx`, row `idx` and the rows after. */
  lemma SplitAt(prev: seq<Subtask>, idx: nat)
    requires idx < |prev|
    ensures prev == prev[..idx] + [prev[idx]] + prev[idx + 1..]
  {
  }

  /** The payload of three consecutive pieces is the payloads of the pieces in order. */
  lemma NormalizeThree(a: seq<Subtask>, x: Subtask, c: seq<Subtask>)
    ensures Normalize(a + [x] + c) == Normalize(a) + Normalize([x]) + Normalize(c)
  {
    NormalizeAppend(a + [x], c);
    NormalizeAppend(a, [x]);
  }

  /** The payload of a list is that of the rows before `idx`, then that of row `idx`, then that of the rows after. */
  lemma NormalizeAround(prev: seq<Subtask>, idx: nat)
    requires idx < |prev|
    ensures Normalize(prev) == Normalize(prev[..idx]) + Normalize([prev[idx]]) + Normalize(prev[idx + 1..])
  {
    SplitAt(prev, idx);
    NormalizeThree(prev[..idx], prev[idx], prev[idx + 1..]);
  }

  /** Removing a row removes only what that row contributed to the payload. */
  lemma RemoveAtSaved(prev: seq<Subtask>, idx: nat)
    requires idx < |prev|
    ensures Normalize(RemoveAt(prev, idx)) == Normalize(prev[..idx]) + Normalize(prev[idx + 1..])
    ensures Normalize(prev) == Normalize(prev[..idx]) + Normalize([prev[idx]]) + Normalize(prev[idx + 1..])
  {
    assert RemoveAt(prev, idx) == prev[..idx] + prev[idx + 1..];
    NormalizeAppend(prev[..idx], prev[idx + 1..]);
    NormalizeAround(prev, idx);
  }

  /** Toggling keeps the number of saved entries: a title decides whether an entry is saved, the flag does not. */
  lemma ToggleKeepsSavedCount(prev: seq<Subtask>, idx: nat)
    requires idx < |prev|
    ensures |Normalize(prev[idx := prev[idx].(completed := !prev[idx].completed)])| == |Normalize(prev)|
  {
    var next := prev[idx := prev[idx].(completed := !prev[idx].completed)];
    assert prev == prev[..idx] + [prev[idx]] + prev[idx + 1..];
    assert next == prev[..idx] + [next[idx]] + prev[idx + 1..];
    NormalizeAppend(prev[..idx] + [prev[idx]], prev[idx + 1..]);
    NormalizeAppend(prev[..idx], [prev[idx]]);
    NormalizeAppend(prev[..idx] + [next[idx]], prev[idx + 1..]);
    NormalizeAppend(prev[..idx], [next[idx]]);
    NormalizeSingle(prev[idx]);
    NormalizeSingle(next[idx]);
  }
}
