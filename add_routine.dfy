/** The add-routine form: the task list being edited, and the save that
    appends the new routine to the stored routines. */
module AddRoutine {
  import opened Common
  import opened Calendar
  import opened Text
  import opened Records
  import opened Storage
  import Routines

  /** A task as the form holds it, before it is stored with a flag. */
  datatype TaskDraft = TaskDraft(id: Id, name: string)

  /** `tasks.map(t => ({...t, completed: false}))`: same ids, names and
      order, every task not completed. */
  function StoredTasks(drafts: seq<TaskDraft>): (r: seq<Task>)
    ensures |r| == |drafts|
    ensures forall i :: 0 <= i < |r| ==> r[i].id == drafts[i].id && r[i].name == drafts[i].name && !r[i].completed
  {
    seq(|drafts|, i requires 0 <= i < |drafts| => Task(drafts[i].id, drafts[i].name, false))
  }

  /** `handleDeleteTask`'s filter: drops every task with the id. */
  function WithoutTask(drafts: seq<TaskDraft>, taskId: Id): (r: seq<TaskDraft>)
    ensures forall t :: t in r <==> t in drafts && t.id != taskId
  {
    Filter(drafts, (t: TaskDraft) => t.id != taskId)
  }

  /** The new routine: its tasks, no history, a Daily frequency, started today. */
  function NewRoutine(id: Id, name: string, description: string, drafts: seq<TaskDraft>, today: Day): (r: Routine)
    ensures r.id == id && r.name == name && r.description == description
    ensures r.tasks == StoredTasks(drafts) && r.startDate == today
    ensures r.history == map[] && r.frequency == Daily
  {
    Routine(id, name, description, StoredTasks(drafts), today, map[], Daily)
  }

  /** No task of a new routine is done on any day. */
  lemma NewRoutineNothingDone(id: Id, name: string, description: string, drafts: seq<TaskDraft>,
                              today: Day, day: Day, taskId: Id)
    ensures !Routines.TaskDone(NewRoutine(id, name, description, drafts, today).history, day, taskId)
  {
  }

  /** The add-routine form's state. */
  class AddRoutineForm {
    var name: string
    var description: string
    var tasks: seq<TaskDraft>
    var taskInput: string

    constructor ()
      ensures name == "" && description == "" && tasks == [] && taskInput == ""
    {
      name, description := "", "";
      tasks := [];
      taskInput := "";
    }

    /** `handleAddTask`: a blank input is ignored; otherwise the untrimmed
        input is appended as a task and the input cleared. */
    method HandleAddTask(id: Id)
      modifies this`tasks, this`taskInput
      ensures IsBlank(old(taskInput)) ==> tasks == old(tasks) && taskInput == old(taskInput)
      ensures !IsBlank(old(taskInput)) ==> tasks == old(tasks) + [TaskDraft(id, old(taskInput))] && taskInput == ""
    {
      if !IsBlank(taskInput) {
        tasks := tasks + [TaskDraft(id, taskInput)];
        taskInput := "";
      }
    }

    /** `handleDeleteTask`. */
    method HandleDeleteTask(taskId: Id)
      modifies this`tasks
      ensures tasks == WithoutTask(old(tasks), taskId)
    {
      tasks := WithoutTask(tasks, taskId);
    }

    /** `handleSaveRoutine`: an empty name or no task is rejected and nothing
        is written; otherwise the new routine is appended after the stored ones. */
    method HandleSaveRoutine(store: Store, id: Id, today: Day) returns (saved: bool)
      modifies store`routines
      ensures saved == (name != "" && |tasks| > 0)
      ensures !saved ==> store.routines == old(store.routines)
      ensures saved ==> store.routines == old(store.routines) + [NewRoutine(id, name, description, tasks, today)]
    {
      if name == "" || |tasks| == 0 {
        return false;
      }
      store.routines := store.routines + [NewRoutine(id, name, description, tasks, today)];
      return true;
    }
  }
}
