/**
 * The dashboard grouping of the home page (frontend/src/pages/HomePage.jsx):
 * three filters of the fetched notes on their stored `status`.
 */
module HomePage {
  import opened Wrappers
  import opened NoteModel
  import opened Wire

  /** `notes.filter((n) => n.status === value)`. */
  function WithStatus(notes: seq<NoteJson>, value: string): (r: seq<NoteJson>)
    ensures |r| <= |notes|
    ensures forall i :: 0 <= i < |r| ==> r[i].status == Some(value)
  {
    if notes == [] then []
    else (if notes[0].status == Some(value) then [notes[0]] else []) + WithStatus(notes[1..], value)
  }

  /** The notes no group shows: a stored status outside the three values, or none. */
  function Ungrouped(notes: seq<NoteJson>): (r: seq<NoteJson>)
    ensures forall i :: 0 <= i < |r| ==> r[i].status.None? || r[i].status.value !in StatusValues
  {
    if notes == [] then []
    else
      var head := if notes[0].status.None? || notes[0].status.value !in StatusValues then [notes[0]] else [];
      head + Ungrouped(notes[1..])
  }

  datatype Dashboard = Dashboard(pending: seq<NoteJson>, inProgress: seq<NoteJson>, completed: seq<NoteJson>)

  /** `pendingTasks`, `inProgressTasks`, `completedTasks`. */
  function Group(notes: seq<NoteJson>): (d: Dashboard)
    ensures forall i :: 0 <= i < |d.pending| ==> d.pending[i].status == Some("pending")
    ensures forall i :: 0 <= i < |d.inProgress| ==> d.inProgress[i].status == Some("in-progress")
    ensures forall i :: 0 <= i < |d.completed| ==> d.completed[i].status == Some("completed")
  {
    Dashboard(WithStatus(notes, "pending"), WithStatus(notes, "in-progress"), WithStatus(notes, "completed"))
  }

  /** A group holds exactly the notes whose stored status is its value. */
  lemma {:induction false} WithStatusMembers(notes: seq<NoteJson>, value: string)
    ensures forall n :: n in WithStatus(notes, value) <==> n in notes && n.status == Some(value)
  {
    if notes != [] {
      WithStatusMembers(notes[1..], value);
      assert forall n :: n in notes <==> n == notes[0] || n in notes[1..];
    }
  }

  /** A group keeps the relative order of the fetched notes: the filter distributes over concatenation. */
  lemma {:induction false} WithStatusAppend(a: seq<NoteJson>, b: seq<NoteJson>, value: string)
    ensures WithStatus(a + b, value) == WithStatus(a, value) + WithStatus(b, value)
  {
    if a == [] {
      assert a + b == b;
    } else {
      assert (a + b)[0] == a[0];
      assert (a + b)[1..] == a[1..] + b;
      WithStatusAppend(a[1..], b, value);
    }
  }

  /** The three groups are pairwise disjoint. */
  lemma GroupsDisjoint(notes: seq<NoteJson>)
    ensures var d := Group(notes);
      && (forall n :: n in d.pending ==> n !in d.inProgress && n !in d.completed)
      && (forall n :: n in d.inProgress ==> n !in d.completed)
  {
  }

  /** Every note lands in exactly one group or in none: the sizes add up to the number of notes. */
  lemma {:induction false} GroupSizes(notes: seq<NoteJson>)
    ensures var d := Group(notes);
      |d.pending| + |d.inProgress| + |d.completed| + |Ungrouped(notes)| == |notes|
  {
    if notes != [] {
      GroupSizes(notes[1..]);
    }
  }

  /** The groups together hold at most all the notes, and all of them when every status is one of the three. */
  lemma GroupsCover(notes: seq<NoteJson>)
    ensures var d := Group(notes); |d.pending| + |d.inProgress| + |d.completed| <= |notes|
    ensures (forall i :: 0 <= i < |notes| ==> notes[i].status.Some? && notes[i].status.value in StatusValues)
      ==> var d := Group(notes); |d.pending| + |d.inProgress| + |d.completed| == |notes|
  {
    GroupSizes(notes);
    if forall i :: 0 <= i < |notes| ==> notes[i].status.Some? && notes[i].status.value in StatusValues {
      AllGroupedNoneLeft(notes);
    }
  }

  lemma {:induction false} AllGroupedNoneLeft(notes: seq<NoteJson>)
    requires forall i :: 0 <= i < |notes| ==> notes[i].status.Some? && notes[i].status.value in StatusValues
    ensures Ungrouped(notes) == []
  {
    if notes != [] {
      AllGroupedNoneLeft(notes[1..]);
    }
  }

  /** Two lists that agree position by position in everything but the subtasks. */
  predicate SameButSubtasks(xs: seq<NoteJson>, ys: seq<NoteJson>) {
    |xs| == |ys| && forall i :: 0 <= i < |xs| ==> ys[i] == xs[i].(subtasks := ys[i].subtasks)
  }

  /** One status filter picks the same notes, in the same order, whatever their subtasks. */
  lemma {:induction false} WithStatusIgnoresSubtasks(notes: seq<NoteJson>, others: seq<NoteJson>, value: string)
    requires SameButSubtasks(notes, others)
    ensures SameButSubtasks(WithStatus(notes, value), WithStatus(others, value))
  {
    if notes != [] {
      assert SameButSubtasks(notes[1..], others[1..]) by {
        forall i | 0 <= i < |notes[1..]|
          ensures others[1..][i] == notes[1..][i].(subtasks := others[1..][i].subtasks)
        {
          assert others[1..][i] == others[i + 1] && notes[1..][i] == notes[i + 1];
        }
      }
      WithStatusIgnoresSubtasks(notes[1..], others[1..], value);
      assert others[0].status == notes[0].status by {
        assert others[0] == notes[0].(subtasks := others[0].subtasks);
      }
    }
  }

  /** Grouping reads the stored status only: each group holds the same notes, in order, whatever their subtasks. */
  lemma GroupIgnoresSubtasks(notes: seq<NoteJson>, others: seq<NoteJson>)
    requires SameButSubtasks(notes, others)
    ensures SameButSubtasks(Group(notes).pending, Group(others).pending)
    ensures SameButSubtasks(Group(notes).inProgress, Group(others).inProgress)
    ensures SameButSubtasks(Group(notes).completed, Group(others).completed)
  {
    WithStatusIgnoresSubtasks(notes, others, "pending");
    WithStatusIgnoresSubtasks(notes, others, "in-progress");
    WithStatusIgnoresSubtasks(notes, others, "completed");
  }
}
