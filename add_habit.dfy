/** The add-habit form: the required-field check, the new record, and its
    append to the stored habits. */
module AddHabit {
  import opened Common
  import opened Calendar
  import opened Records
  import opened Storage
  import Habits

  /** The new habit: the category's name, icon and colour are copied in, it
      starts today, and it has no history yet. */
  function NewHabit(id: Id, name: string, description: string, category: Category,
                    frequency: Frequency, today: Day): (h: Habit)
    ensures h.id == id && h.name == name && h.description == description && h.frequency == frequency
    ensures h.category == category.name && h.icon == category.icon && h.backgroundColor == category.color
    ensures h.startDate == today && h.history == map[]
  {
    Habit(id, name, description, category.name, category.icon, category.color, frequency, today, map[])
  }

  /** A new habit shows 0% accuracy, and is listed on every day from its
      creation day on and on no earlier day. */
  lemma NewHabitShape(id: Id, name: string, description: string, category: Category,
                      frequency: Frequency, today: Day, day: Day)
    ensures Habits.Accuracy(NewHabit(id, name, description, category, frequency, today).history) == 0
    ensures var h := NewHabit(id, name, description, category, frequency, today);
      (h in Habits.Visible([h], day)) <==> today <= day
  {
  }

  /** The add-habit form's state; the frequency picker starts on Daily. */
  class AddHabitForm {
    var selectedCategory: Option<Category>
    var name: string
    var description: string
    var frequency: Frequency

    constructor ()
      ensures selectedCategory == None && name == "" && description == "" && frequency == Daily
    {
      selectedCategory := None;
      name, description := "", "";
      frequency := Daily;
    }

    /** Tapping one of the category tiles. */
    method SelectCategory(c: Category)
      modifies this`selectedCategory
      ensures selectedCategory == Some(c)
    {
      selectedCategory := Some(c);
    }

    /** Tapping one of the Daily / Weekly / Monthly buttons. */
    method SelectFrequency(f: Frequency)
      modifies this`frequency
      ensures frequency == f
    {
      frequency := f;
    }

    /** `handleAddHabit`: an empty name or no category is rejected and nothing
        is written; otherwise the new habit is appended after the stored ones. */
    method HandleAddHabit(store: Store, id: Id, today: Day) returns (saved: bool)
      modifies store`habits
      ensures saved == (name != "" && selectedCategory.Some?)
      ensures !saved ==> store.habits == old(store.habits)
      ensures saved ==> (store.habits ==
        old(store.habits) + [NewHabit(id, name, description, selectedCategory.value, frequency, today)])
    {
      if name == "" || selectedCategory.None? {
        return false;
      }
      var habit := NewHabit(id, name, description, selectedCategory.value, frequency, today);
      store.habits := store.habits + [habit];
      return true;
    }
  }
}
