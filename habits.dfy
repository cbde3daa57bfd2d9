/** The habits screen: the 30-day strip, the habits visible on the selected
    day, each habit's accuracy, and the two handlers that rewrite the
    collection (toggle today's completion, delete a habit). */
module Habits {
  import opened Common
  import opened Calendar
  import opened Percent
  import opened Records
  import opened Storage

  /** `filteredHabits`: the habits already started on the selected day. */
  function Visible(habits: seq<Habit>, selectedDate: Day): (r: seq<Habit>)
    ensures forall h :: h in r <==> h in habits && h.startDate <= selectedDate
  {
    Filter(habits, (h: Habit) => h.startDate <= selectedDate)
  }

  /** `!history?.[day]`'s operand: the day is recorded and recorded as done. */
  predicate DoneOn(history: map<Day, bool>, day: Day)
  {
    day in history && history[day]
  }

  /** The days recorded as done. */
  function DoneDays(history: map<Day, bool>): (r: set<Day>)
    ensures r <= history.Keys
    ensures forall d :: d in r <==> DoneOn(history, d)
  {
    set d | d in history && history[d]
  }

  /** `calculateAccuracy`: done days over recorded days, as a rounded
      percentage; 0 when nothing is recorded. A recorded `false` counts in
      the denominator; frequency and start date play no part. */
  function Accuracy(history: map<Day, bool>): (r: nat)
    ensures r <= 100
    ensures |history| == 0 ==> r == 0
    ensures |DoneDays(history)| == 0 ==> r == 0
    ensures |history| > 0 && DoneDays(history) == history.Keys ==> r == 100
    ensures |history| > 0 ==>
      var done, total := |DoneDays(history)|, |history|;
      2 * total * r <= 200 * done + total < 2 * total * (r + 1)
  {
    if |history| == 0 then 0
    else
      var done := DoneDays(history);
      SubsetCardinality(done, history.Keys);
      RoundPercentBounds(|done|, |history|);
      RoundPercent(|done|, |history|)
  }

  /** The history after toggling `day`: the day becomes the negation of what
      it was, an absent day becoming `true`; every other day is kept. */
  function ToggleDay(history: map<Day, bool>, day: Day): (r: map<Day, bool>)
    ensures r.Keys == history.Keys + {day}
    ensures DoneOn(r, day) == !DoneOn(history, day)
    ensures forall d :: d in history && d != day ==> r[d] == history[d]
  {
    history[day := !DoneOn(history, day)]
  }

  /** `habits.map(...)` in `toggleCompletion`: every habit with the given id
      has `day` toggled in its history, and nothing else changes. */
  function ToggleHabits(habits: seq<Habit>, habitId: Id, day: Day): (r: seq<Habit>)
    ensures |r| == |habits|
    ensures forall i :: 0 <= i < |habits| && habits[i].id != habitId ==> r[i] == habits[i]
    ensures forall i :: 0 <= i < |habits| && habits[i].id == habitId ==>
      r[i] == habits[i].(history := ToggleDay(habits[i].history, day))
  {
    seq(|habits|, i requires 0 <= i < |habits| =>
      if habits[i].id == habitId then habits[i].(history := ToggleDay(habits[i].history, day))
      else habits[i])
  }

  /** `deleteHabit`'s filter: drops every habit with the id. */
  function WithoutHabit(habits: seq<Habit>, habitId: Id): (r: seq<Habit>)
    ensures forall h :: h in r <==> h in habits && h.id != habitId
  {
    Filter(habits, (h: Habit) => h.id != habitId)
  }

  /** Toggling one day twice gives the day back its truth value and touches
      no other day; an absent day stays behind as a recorded `false`, so the
      history is restored only when the day was already recorded. */
  lemma ToggleDayTwice(history: map<Day, bool>, day: Day)
    ensures DoneOn(ToggleDay(ToggleDay(history, day), day), day) == DoneOn(history, day)
    ensures ToggleDay(ToggleDay(history, day), day).Keys == history.Keys + {day}
    ensures day in history ==> ToggleDay(ToggleDay(history, day), day) == history
    ensures day !in history ==> ToggleDay(ToggleDay(history, day), day) == history[day := false]
  {
  }

  /** Toggling a day that was never recorded, twice, leaves the same days done
      but one more day recorded: the accuracy's denominator has grown. */
  lemma {:induction false} ToggleTwiceGrowsDenominator(history: map<Day, bool>, day: Day)
    requires day !in history
    ensures |ToggleDay(ToggleDay(history, day), day)| == |history| + 1
    ensures DoneDays(ToggleDay(ToggleDay(history, day), day)) == DoneDays(history)
  {
    var h2 := ToggleDay(ToggleDay(history, day), day);
    ToggleDayTwice(history, day);
    assert h2.Keys == history.Keys + {day};
    assert |h2.Keys| == |history.Keys| + 1;
  }

  /** A habit whose only entry was toggled off again shows 0% accuracy,
      whereas before the two toggles it had no recorded day at all. */
  lemma ToggleTwiceOnEmptyHistory(day: Day)
    ensures ToggleDay(ToggleDay(map[], day), day) == map[day := false]
    ensures Accuracy(ToggleDay(ToggleDay(map[], day), day)) == 0
  {
    assert DoneDays(map[day := false]) == {};
  }

  /** Toggling a day never changes the done/recorded status of other days, so
      it can move the done count by at most one. */
  lemma {:induction false} ToggleDayDoneCount(history: map<Day, bool>, day: Day)
    ensures DoneOn(history, day) ==> DoneDays(ToggleDay(history, day)) == DoneDays(history) - {day}
    ensures !DoneOn(history, day) ==> DoneDays(ToggleDay(history, day)) == DoneDays(history) + {day}
  {
    var r := ToggleDay(history, day);
    assert forall d :: d != day ==> (DoneOn(r, d) <==> DoneOn(history, d));
  }

  lemma {:induction false} SubsetCardinality<T>(a: set<T>, b: set<T>)
    requires a <= b
    ensures |a| <= |b|
  {
    if a != {} {
      var x :| x in a;
      SubsetCardinality(a - {x}, b - {x});
    }
  }

  /** The habits screen's state: the loaded habits and the selected day. */
  class HabitsScreen {
    var habits: seq<Habit>
    var selectedDate: Day

    /** The screen opens on today with no habits loaded yet. */
    constructor (today: Day)
      ensures habits == [] && selectedDate == today
    {
      habits := [];
      selectedDate := today;
    }

    /** `fetchHabits`: the stored habits, `[]` when none are stored. */
    method FetchHabits(store: Store)
      modifies this`habits
      ensures habits == store.habits
    {
      habits := store.habits;
    }

    /** Tapping a day in the strip. */
    method SelectDate(day: Day)
      modifies this`selectedDate
      ensures selectedDate == day
    {
      selectedDate := day;
    }

    /** `toggleCompletion`: refused unless the selected day is today; then the
        habit's entry for today is toggled and the whole collection written. */
    method ToggleCompletion(store: Store, habitId: Id, today: Day) returns (allowed: bool)
      modifies this`habits, store`habits
      ensures allowed == (selectedDate == today)
      ensures !allowed ==> habits == old(habits) && store.habits == old(store.habits)
      ensures allowed ==> habits == ToggleHabits(old(habits), habitId, today) && store.habits == habits
    {
      if selectedDate != today {
        return false;
      }
      habits := ToggleHabits(habits, habitId, selectedDate);
      store.habits := habits;
      return true;
    }

    /** `deleteHabit`, once confirmed: every habit with the id is dropped and
        the collection written. */
    method DeleteHabit(store: Store, habitId: Id)
      modifies this`habits, store`habits
      ensures habits == WithoutHabit(old(habits), habitId) && store.habits == habits
    {
      habits := WithoutHabit(habits, habitId);
      store.habits := habits;
    }
  }
}
