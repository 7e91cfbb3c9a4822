/** The admin games table's two-click delete (components/admin/games-table.tsx):
    the first click on a row's delete button arms that row, a second click on
    the armed row deletes it, and every three-second timer disarms. */
module GamesTable {
  import opened Models

  /** What reaches `deleteConfirm`: a click on a row's delete button, or one of
      the `setTimeout(..., 3000)` callbacks firing. */
  datatype Event = ClickDelete(id: Id) | Timeout

  /** The new `deleteConfirm` and the id passed to `onDelete`, if any. */
  datatype Outcome = Outcome(armed: Option<Id>, deleted: Option<Id>)

  /** One event against the current `deleteConfirm`. */
  function React(armed: Option<Id>, e: Event): (r: Outcome)
    // a click deletes exactly when it repeats the armed id, and then deletes that id and disarms
    ensures e.ClickDelete? ==> (r.deleted.Some? <==> armed == Some(e.id))
    ensures r.deleted.Some? ==> r.deleted == armed && r.armed == None
    // any other click arms its own row and deletes nothing
    ensures e.ClickDelete? && armed != Some(e.id) ==> r.armed == Some(e.id)
    // a timer deletes nothing and disarms, whichever row is armed
    ensures e.Timeout? ==> r.armed == None && r.deleted == None
  {
    match e
    case ClickDelete(id) =>
      if armed == Some(id) then Outcome(None, Some(id)) else Outcome(Some(id), None)
    case Timeout => Outcome(None, None)
  }

  /** `deleteConfirm` after a sequence of events, starting from `useState(null)`. */
  function ArmedAfter(events: seq<Event>): Option<Id>
  {
    if events == [] then None
    else React(ArmedAfter(events[..|events| - 1]), events[|events| - 1]).armed
  }

  /** The ids handed to `onDelete` over a sequence of events, in order. */
  function DeletedDuring(events: seq<Event>): seq<Id>
  {
    if events == [] then []
    else
      var r := React(ArmedAfter(events[..|events| - 1]), events[|events| - 1]);
      DeletedDuring(events[..|events| - 1]) + (if r.deleted.Some? then [r.deleted.value] else [])
  }

  /** Only the most recent event can leave a row armed: it is a click on that
      row, and the row was not already armed before that click (a click on an
      armed row deletes it instead). */
  lemma {:induction false} ArmedIsLastClick(events: seq<Event>)
    ensures ArmedAfter(events).Some? ==>
              events != [] && events[|events| - 1] == ClickDelete(ArmedAfter(events).value)
    ensures ArmedAfter(events).Some? ==> ArmedAfter(events[..|events| - 1]) != ArmedAfter(events)
    ensures events == [] || events[|events| - 1].Timeout? ==> ArmedAfter(events) == None
  {
  }

  /** A click deletes exactly when the event before it was a click on the same
      row that armed it; the deleted id is that row's. */
  lemma {:induction false} DeleteNeedsRepeatedClick(events: seq<Event>, id: Id)
    requires events != [] && events[|events| - 1] == ClickDelete(id)
    ensures React(ArmedAfter(events[..|events| - 1]), ClickDelete(id)).deleted.Some? <==>
              |events| >= 2 && events[|events| - 2] == ClickDelete(id) &&
              ArmedAfter(events[..|events| - 1]) == Some(id)
  {
    var prefix := events[..|events| - 1];
    ArmedIsLastClick(prefix);
    if |events| >= 2 {
      assert prefix[|prefix| - 1] == events[|events| - 2];
    }
  }

  /** Every id handed to `onDelete` over a run was armed just before the click
      that deleted it, so it names a row that was clicked at least twice. */
  lemma {:induction false} DeletedWereClicked(events: seq<Event>)
    ensures forall x :: x in DeletedDuring(events) ==>
              exists k :: 0 < k < |events| && events[k - 1] == ClickDelete(x) && events[k] == ClickDelete(x)
  {
    if events != [] {
      var n := |events| - 1;
      var prefix := events[..n];
      DeletedWereClicked(prefix);
      var r := React(ArmedAfter(prefix), events[n]);
      forall x | x in DeletedDuring(events)
        ensures exists k :: 0 < k < |events| && events[k - 1] == ClickDelete(x) && events[k] == ClickDelete(x)
      {
        if x in DeletedDuring(prefix) {
          var k :| 0 < k < |prefix| && prefix[k - 1] == ClickDelete(x) && prefix[k] == ClickDelete(x);
          assert events[k - 1] == ClickDelete(x) && events[k] == ClickDelete(x);
        } else {
          assert r.deleted == Some(x);
          ArmedIsLastClick(prefix);
          assert events[n - 1] == prefix[|prefix| - 1];
          assert events[n - 1] == ClickDelete(x) && events[n] == ClickDelete(x);
        }
      }
    }
  }

  /** A timer started by an earlier click also disarms a later confirmation:
      after clicking row "a", then row "b", the first timer to fire (the one
      "a" started) leaves no row armed. */
  lemma StaleTimerDisarmsNewerRow()
    ensures ArmedAfter([ClickDelete("a"), ClickDelete("b")]) == Some("b")
    ensures ArmedAfter([ClickDelete("a"), ClickDelete("b"), Timeout]) == None
  {
    assert [ClickDelete("a"), ClickDelete("b")][..1] == [ClickDelete("a")];
    assert [ClickDelete("a")][..0] == [];
    assert [ClickDelete("a"), ClickDelete("b"), Timeout][..2] == [ClickDelete("a"), ClickDelete("b")];
  }

  /** The delete button's variant: destructive for the armed row, outline otherwise. */
  datatype Variant = Destructive | Outline

  function ButtonVariant(armed: Option<Id>, rowId: Id): (v: Variant)
    ensures v == Destructive <==> armed == Some(rowId)
  {
    if armed == Some(rowId) then Destructive else Outline
  }

  /** At most one row is drawn destructive, and none when nothing is armed. */
  lemma AtMostOneDestructiveRow(armed: Option<Id>, a: Id, b: Id)
    ensures ButtonVariant(armed, a) == Destructive && ButtonVariant(armed, b) == Destructive ==> a == b
    ensures armed == None ==> ButtonVariant(armed, a) == Outline
  {
  }

  /** The component's state: `deleteConfirm` and the timers it has started
      that have not fired yet. */
  class DeleteConfirmation {
    var deleteConfirm: Option<Id>
    var pendingTimers: nat

    /** `useState<string | null>(null)`, and no timer started. */
    constructor ()
      ensures deleteConfirm == None && pendingTimers == 0
    {
      deleteConfirm := None;
      pendingTimers := 0;
    }

    /** `handleDelete(gameId)`: returns the id passed to `onDelete`, if any. */
    method HandleDelete(gameId: Id) returns (deleted: Option<Id>)
      modifies this
      ensures deleted.Some? <==> old(deleteConfirm) == Some(gameId)
      ensures deleted.Some? ==> deleted == Some(gameId) && deleteConfirm == None && pendingTimers == old(pendingTimers)
      ensures deleted.None? ==> deleteConfirm == Some(gameId) && pendingTimers == old(pendingTimers) + 1
      ensures Outcome(deleteConfirm, deleted) == React(old(deleteConfirm), ClickDelete(gameId))
    {
      if deleteConfirm == Some(gameId) {
        deleted := Some(gameId);
        deleteConfirm := None;
      } else {
        deleted := None;
        deleteConfirm := Some(gameId);
        pendingTimers := pendingTimers + 1;
      }
    }

    /** One of the started timers fires and runs `setDeleteConfirm(null)`. */
    method TimerFires()
      requires pendingTimers > 0
      modifies this
      ensures deleteConfirm == None && pendingTimers == old(pendingTimers) - 1
      ensures deleteConfirm == React(old(deleteConfirm), Timeout).armed
    {
      deleteConfirm := None;
      pendingTimers := pendingTimers - 1;
    }

    /** `deleteConfirm === game._id` for the row of `rowId`: the button drawn
        destructive is exactly the one whose next click deletes its row. */
    predicate IsDestructive(rowId: Id)
      reads this
      ensures IsDestructive(rowId) <==> React(deleteConfirm, ClickDelete(rowId)).deleted == Some(rowId)
      ensures IsDestructive(rowId) ==> forall other :: other != rowId ==> ButtonVariant(deleteConfirm, other) == Outline
    {
      ButtonVariant(deleteConfirm, rowId) == Destructive
    }
  }
}
