/** The records the screens keep in storage. Identifiers are the strings the
    screens make from the clock when they create a record; here they are
    given. */
module Records {
  import opened Calendar

  type Id = string

  datatype Frequency = Daily | Weekly | Monthly

  /** A category as chosen on a form; a habit or goal copies its fields. */
  datatype Category = Category(name: string, icon: string, color: string)

  /** A habit with its completion ledger: day -> done. */
  datatype Habit = Habit(
    id: Id,
    name: string,
    description: string,
    category: string,
    icon: string,
    backgroundColor: string,
    frequency: Frequency,
    startDate: Day,
    history: map<Day, bool>)

  /** A routine step as stored with the routine. */
  datatype Task = Task(id: Id, name: string, completed: bool)

  /** A routine with its two-level ledger: day -> task id -> done. */
  datatype Routine = Routine(
    id: Id,
    name: string,
    description: string,
    tasks: seq<Task>,
    startDate: Day,
    history: map<Day, map<Id, bool>>,
    frequency: Frequency)

  datatype Milestone = Milestone(id: Id, name: string, completed: bool)

  /** A goal; `completed` is stored, and recomputed on every milestone toggle. */
  datatype Goal = Goal(
    id: Id,
    name: string,
    description: string,
    category: string,
    startDate: Day,
    deadline: Day,
    milestones: seq<Milestone>,
    completed: bool)

  datatype Note = Note(id: Id, heading: string, body: string, date: Day)

  /** A finished countdown. `duration` is the text `<h>h <m>m <s>s`; the two
      times are the wall-clock texts the screen records. */
  datatype Session = Session(title: string, duration: string, startTime: string, endTime: string)

  /** The persisted countdown state. */
  datatype TimerState = TimerState(timeLeft: int, isRunning: bool)
}
