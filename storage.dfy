/** The device's key-value store, one field per key. A key that the screens
    read through the shared loader, where an absent key reads as `[]`, is a
    plain sequence; a key whose absence a screen tells apart is an `Option`. */
module Storage {
  import opened Common
  import opened Records

  class Store {
    var habits: seq<Habit>
    var routines: seq<Routine>
    var goals: seq<Goal>
    var categories: Option<seq<Category>>
    var notes: seq<Note>
    var notesPassword: Option<string>
    var timerSessions: Option<seq<Session>>
    var timerState: Option<TimerState>

    /** A store in which no key has been written yet. */
    constructor ()
      ensures habits == [] && routines == [] && goals == [] && notes == []
      ensures categories == None && notesPassword == None
      ensures timerSessions == None && timerState == None
    {
      habits, routines, goals, notes := [], [], [], [];
      categories, notesPassword := None, None;
      timerSessions, timerState := None, None;
    }
  }
}
