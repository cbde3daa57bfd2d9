/** The routines screen: the routines visible on the selected day, and the
    two handlers that rewrite the collection (toggle a task for today,
    delete a routine). */
module Routines {
  import opened Common
  import opened Calendar
  import opened Records
  import opened Storage

  /** `filteredRoutines`: the routines already started on the selected day. */
  function Visible(routines: seq<Routine>, selectedDate: Day): (r: seq<Routine>)
    ensures forall x :: x in r <==> x in routines && x.startDate <= selectedDate
  {
    Filter(routines, (x: Routine) => x.startDate <= selectedDate)
  }

  /** The task entries recorded for a day; `{}` when the day is absent. */
  function EntriesOn(history: map<Day, map<Id, bool>>, day: Day): map<Id, bool>
  {
    if day in history then history[day] else map[]
  }

  /** `history?.[day]?.[taskId]` is truthy. */
  predicate TaskDone(history: map<Day, map<Id, bool>>, day: Day, taskId: Id)
  {
    var entries := EntriesOn(history, day);
    taskId in entries && entries[taskId]
  }

  /** The history after toggling a task on a day: that entry becomes the
      negation of what it was (absent becoming `true`), the day's other task
      entries are kept, and so are all other days. */
  function ToggleTask(history: map<Day, map<Id, bool>>, day: Day, taskId: Id): (r: map<Day, map<Id, bool>>)
    ensures r.Keys == history.Keys + {day}
    ensures forall d :: d in history && d != day ==> r[d] == history[d]
    ensures r[day].Keys == EntriesOn(history, day).Keys + {taskId}
    ensures TaskDone(r, day, taskId) == !TaskDone(history, day, taskId)
    ensures forall t :: t in EntriesOn(history, day) && t != taskId ==> r[day][t] == EntriesOn(history, day)[t]
  {
    history[day := EntriesOn(history, day)[taskId := !TaskDone(history, day, taskId)]]
  }

  /** `routines.map(...)` in `toggleTaskCompletion`: each routine with the id
      gets the task toggled for the day; nothing else changes. */
  function ToggleRoutines(routines: seq<Routine>, routineId: Id, day: Day, taskId: Id): (r: seq<Routine>)
    ensures |r| == |routines|
    ensures forall i :: 0 <= i < |routines| && routines[i].id != routineId ==> r[i] == routines[i]
    ensures forall i :: 0 <= i < |routines| && routines[i].id == routineId ==>
      r[i] == routines[i].(history := ToggleTask(routines[i].history, day, taskId))
  {
    seq(|routines|, i requires 0 <= i < |routines| =>
      if routines[i].id == routineId
      then routines[i].(history := ToggleTask(routines[i].history, day, taskId))
      else routines[i])
  }

  /** `deleteRoutine`'s filter: drops every routine with the id. */
  function WithoutRoutine(routines: seq<Routine>, routineId: Id): (r: seq<Routine>)
    ensures forall x :: x in r <==> x in routines && x.id != routineId
  {
    Filter(routines, (x: Routine) => x.id != routineId)
  }

  /** Toggling the same task twice on a day gives it back its truth value and
      leaves every other task of that day, and every other day, as it was. */
  lemma ToggleTaskTwice(history: map<Day, map<Id, bool>>, day: Day, taskId: Id)
    ensures TaskDone(ToggleTask(ToggleTask(history, day, taskId), day, taskId), day, taskId)
         == TaskDone(history, day, taskId)
    ensures forall d :: d in history && d != day ==>
      ToggleTask(ToggleTask(history, day, taskId), day, taskId)[d] == history[d]
    ensures forall t :: t in EntriesOn(history, day) && t != taskId ==>
      ToggleTask(ToggleTask(history, day, taskId), day, taskId)[day][t] == EntriesOn(history, day)[t]
  {
  }

  /** The routines screen's state: the loaded routines and the selected day. */
  class RoutinesScreen {
    var routines: seq<Routine>
    var selectedDate: Day

    /** The screen opens on today with no routines loaded yet. */
    constructor (today: Day)
      ensures routines == [] && selectedDate == today
    {
      routines := [];
      selectedDate := today;
    }

    /** `fetchRoutines`: the stored routines, `[]` when none are stored. */
    method FetchRoutines(store: Store)
      modifies this`routines
      ensures routines == store.routines
    {
      routines := store.routines;
    }

    /** Tapping a day in the strip. */
    method SelectDate(day: Day)
      modifies this`selectedDate
      ensures selectedDate == day
    {
      selectedDate := day;
    }

    /** `toggleTaskCompletion`: refused (an alert) unless the selected day is
        today; then the task is toggled for today and the collection written. */
    method ToggleTaskCompletion(store: Store, routineId: Id, taskId: Id, today: Day) returns (allowed: bool)
      modifies this`routines, store`routines
      ensures allowed == (selectedDate == today)
      ensures !allowed ==> routines == old(routines) && store.routines == old(store.routines)
      ensures allowed ==> routines == ToggleRoutines(old(routines), routineId, today, taskId)
      ensures allowed ==> store.routines == routines
    {
      if selectedDate != today {
        return false;
      }
      routines := ToggleRoutines(routines, routineId, selectedDate, taskId);
      store.routines := routines;
      return true;
    }

    /** `deleteRoutine`, once confirmed: every routine with the id is dropped
        and the collection written. */
    method DeleteRoutine(store: Store, routineId: Id)
      modifies this`routines, store`routines
      ensures routines == WithoutRoutine(old(routines), routineId) && store.routines == routines
    {
      routines := WithoutRoutine(routines, routineId);
      store.routines := routines;
    }
  }
}
