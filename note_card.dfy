/**
 * The note card (frontend/src/components/NoteCard.jsx): the status badge and
 * the progress bar it derives from a note's subtasks, falling back to the
 * stored status, and the list update after a delete.
 */
module NoteCard {
  import opened Wrappers
  import opened JsString
  import opened NoteModel
  import opened Wire

  /** `note.subtasks || []`. */
  function SubtasksOf(n: NoteJson): seq<Subtask> {
    n.subtasks.GetOr([])
  }

  predicate AllCompleted(subs: seq<Subtask>) {
    forall i :: 0 <= i < |subs| ==> subs[i].completed
  }

  predicate NoneCompleted(subs: seq<Subtask>) {
    forall i :: 0 <= i < |subs| ==> !subs[i].completed
  }

  /** `subs.filter((s) => s.completed).length`. */
  function CompletedCount(subs: seq<Subtask>): (c: nat)
    ensures c <= |subs|
    ensures c == |subs| <==> AllCompleted(subs)
    ensures c == 0 <==> NoneCompleted(subs)
  {
    if subs == [] then 0
    else (if subs[0].completed then 1 else 0) + CompletedCount(subs[1..])
  }

  /**
   * The count works subtask by subtask: it adds up over concatenation, so with
   * the one-subtask case it is the number of ticked subtasks.
   */
  lemma {:induction false} CompletedCountAppend(a: seq<Subtask>, b: seq<Subtask>)
    ensures CompletedCount(a + b) == CompletedCount(a) + CompletedCount(b)
  {
    if a == [] {
      assert a + b == b;
    } else {
      assert (a + b)[0] == a[0];
      assert (a + b)[1..] == a[1..] + b;
      CompletedCountAppend(a[1..], b);
    }
  }

  /** One subtask counts 1 when ticked and 0 otherwise. */
  lemma CompletedCountSingle(s: Subtask)
    ensures CompletedCount([s]) == if s.completed then 1 else 0
  {
    assert [s][1..] == [];
  }

  lemma MulMonotone(a: nat, b: int, c: int)
    requires b <= c
    ensures a * b <= a * c
  {
    assert a * c - a * b == a * (c - b);
  }

  /**
   * `Math.round((c / n) * 100)` in integer arithmetic, rounding halves up:
   * the nearest integer to 100c/n.
   */
  function RoundedPercent(c: nat, n: nat): (p: int)
    requires 0 < n && c <= n
    ensures 0 <= p <= 100
    ensures 2 * n * p <= 200 * c + n < 2 * n * (p + 1)
    ensures c == 0 ==> p == 0
    ensures c == n ==> p == 100
  {
    var num, den := 200 * c + n, 2 * n;
    var q := num / den;
    assert num == den * q + num % den && 0 <= num % den < den;
    assert den * (q + 1) == den * q + den;
    assert q <= 100 by {
      if q > 100 { MulMonotone(den, 101, q); }
    }
    assert c == 0 ==> q == 0 by {
      if c == 0 && q > 0 { MulMonotone(den, 1, q); }
    }
    assert c == n ==> q == 100 by {
      if c == n && q < 100 { MulMonotone(den, q, 99); }
    }
    q
  }

  /** The percentages a partly done list can show: above 0 and below 100 only while `n` is small enough. */
  lemma PartialPercentBounds(c: nat, n: nat)
    requires 0 < c < n
    ensures RoundedPercent(c, n) >= 1 <==> 200 * c >= n
    ensures RoundedPercent(c, n) <= 99 <==> 200 * c < 199 * n
  {
    var p := RoundedPercent(c, n);
    var m := 2 * n;
    assert m * p <= 200 * c + n < m * (p + 1);
    if p >= 1 {
      MulMonotone(m, 1, p);
    } else {
      assert p == 0;
    }
    if p <= 99 {
      MulMonotone(m, p + 1, 100);
    } else {
      MulMonotone(m, 100, p);
    }
  }

  /** `computeProgress`: the card's percentage. */
  function ComputeProgress(n: NoteJson): (p: int)
    ensures 0 <= p <= 100
    ensures SubtasksOf(n) != [] ==> p == RoundedPercent(CompletedCount(SubtasksOf(n)), |SubtasksOf(n)|)
    ensures SubtasksOf(n) == [] ==>
      p == (if n.status == Some("completed") then 100 else if n.status == Some("in-progress") then 50 else 0)
  {
    var subs := SubtasksOf(n);
    if |subs| != 0 then RoundedPercent(CompletedCount(subs), |subs|)
    else if n.status == Some("completed") then 100
    else if n.status == Some("in-progress") then 50
    else 0
  }

  /** `deriveStatus`: the badge; subtasks decide when there are any, the stored status otherwise. */
  function DeriveStatus(n: NoteJson): (s: string)
    ensures SubtasksOf(n) != [] ==> s in StatusValues
    ensures SubtasksOf(n) != [] && AllCompleted(SubtasksOf(n)) ==> s == "completed"
    ensures SubtasksOf(n) != [] && NoneCompleted(SubtasksOf(n)) ==> s == "pending"
    ensures (SubtasksOf(n) != [] && !AllCompleted(SubtasksOf(n)) && !NoneCompleted(SubtasksOf(n)))
      ==> s == "in-progress"
    ensures SubtasksOf(n) == [] ==> s == (if Truthy(n.status) then n.status.value else "pending")
  {
    var subs := SubtasksOf(n);
    if |subs| != 0 then
      var c := CompletedCount(subs);
      if c == |subs| then "completed"
      else if c > 0 then "in-progress"
      else "pending"
    else if Truthy(n.status) then n.status.value
    else "pending"
  }

  /** All subtasks done: badge `completed` and a full bar. */
  lemma AllDone(n: NoteJson)
    requires SubtasksOf(n) != [] && AllCompleted(SubtasksOf(n))
    ensures DeriveStatus(n) == "completed" && ComputeProgress(n) == 100
  {
  }

  /** No subtask done: badge `pending` and an empty bar. */
  lemma NoneDone(n: NoteJson)
    requires SubtasksOf(n) != [] && NoneCompleted(SubtasksOf(n))
    ensures DeriveStatus(n) == "pending" && ComputeProgress(n) == 0
  {
  }

  /** Some but not all done: badge `in-progress`; the bar stays strictly inside (0, 100) for fewer than 200 subtasks. */
  lemma SomeDone(n: NoteJson)
    requires SubtasksOf(n) != [] && !AllCompleted(SubtasksOf(n)) && !NoneCompleted(SubtasksOf(n))
    ensures DeriveStatus(n) == "in-progress"
    ensures |SubtasksOf(n)| < 200 ==> 0 < ComputeProgress(n) < 100
  {
    var subs := SubtasksOf(n);
    PartialPercentBounds(CompletedCount(subs), |subs|);
  }

  /** One ticked subtask out of 201 is shown as 0% although the badge says `in-progress`. */
  lemma InProgressCanShowZero(n: NoteJson)
    requires |SubtasksOf(n)| == 201 && CompletedCount(SubtasksOf(n)) == 1
    ensures DeriveStatus(n) == "in-progress" && ComputeProgress(n) == 0
  {
  }

  /** With subtasks present the stored status plays no part in the badge or the bar. */
  lemma StoredStatusIgnored(a: NoteJson, b: NoteJson)
    requires SubtasksOf(a) == SubtasksOf(b) != []
    ensures DeriveStatus(a) == DeriveStatus(b) && ComputeProgress(a) == ComputeProgress(b)
  {
  }

  /** Without subtasks the bar is the status mapped to 100 / 50 / 0, and agrees with the badge. */
  lemma NoSubtasksProgress(n: NoteJson)
    requires SubtasksOf(n) == []
    ensures DeriveStatus(n) == "completed" <==> ComputeProgress(n) == 100
    ensures DeriveStatus(n) == "in-progress" <==> ComputeProgress(n) == 50
    ensures DeriveStatus(n) !in ["completed", "in-progress"] <==> ComputeProgress(n) == 0
  {
  }

  /** The delete update: `prev.filter((note) => note._id !== id)`. */
  function RemoveById(prev: seq<NoteJson>, id: NoteId): (r: seq<NoteJson>)
    ensures |r| <= |prev|
    ensures forall i :: 0 <= i < |r| ==> r[i].id != id
  {
    if prev == [] then []
    else (if prev[0].id != id then [prev[0]] else []) + RemoveById(prev[1..], id)
  }

  /** The survivors are exactly the previous notes with another id. */
  lemma {:induction false} RemoveByIdMembers(prev: seq<NoteJson>, id: NoteId)
    ensures forall n :: n in RemoveById(prev, id) <==> n in prev && n.id != id
  {
    if prev != [] {
      RemoveByIdMembers(prev[1..], id);
      assert forall n :: n in prev <==> n == prev[0] || n in prev[1..];
    }
  }

  /** The filter works element by element, so the survivors keep their order. */
  lemma {:induction false} RemoveByIdAppend(a: seq<NoteJson>, b: seq<NoteJson>, id: NoteId)
    ensures RemoveById(a + b, id) == RemoveById(a, id) + RemoveById(b, id)
  {
    if a == [] {
      assert a + b == b;
    } else {
      assert (a + b)[0] == a[0];
      assert (a + b)[1..] == a[1..] + b;
      RemoveByIdAppend(a[1..], b, id);
    }
  }

  /** A list without the id is left as it is. */
  lemma {:induction false} RemoveByIdAbsent(prev: seq<NoteJson>, id: NoteId)
    requires forall i :: 0 <= i < |prev| ==> prev[i].id != id
    ensures RemoveById(prev, id) == prev
  {
    if prev != [] {
      RemoveByIdAbsent(prev[1..], id);
    }
  }

  /** Removing the one note with the id from between two lists without it leaves their concatenation. */
  lemma RemoveByIdBetween(before: seq<NoteJson>, x: NoteJson, after: seq<NoteJson>, id: NoteId)
    requires x.id == id
    requires forall i :: 0 <= i < |before| ==> before[i].id != id
    requires forall i :: 0 <= i < |after| ==> after[i].id != id
    ensures RemoveById(before + [x] + after, id) == before + after
  {
    RemoveByIdAppend(before + [x], after, id);
    RemoveByIdAppend(before, [x], id);
    assert RemoveById([x], id) == [] by {
      assert [x][1..] == [];
    }
    RemoveByIdAbsent(before, id);
    RemoveByIdAbsent(after, id);
  }

  /** When the id occurs once, at `k`, exactly that position goes and the rest keep their order. */
  lemma RemoveByIdOnce(prev: seq<NoteJson>, id: NoteId, k: nat)
    requires k < |prev| && prev[k].id == id
    requires forall i :: 0 <= i < |prev| && i != k ==> prev[i].id != id
    ensures RemoveById(prev, id) == prev[..k] + prev[k + 1..]
  {
    var before, after := prev[..k], prev[k + 1..];
    assert prev == before + [prev[k]] + after;
    forall i | 0 <= i < |before| ensures before[i].id != id {
      assert before[i] == prev[i];
    }
    forall i | 0 <= i < |after| ensures after[i].id != id {
      assert after[i] == prev[k + 1 + i];
    }
    RemoveByIdBetween(before, prev[k], after, id);
  }
}
