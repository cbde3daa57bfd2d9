/** The add-goal form: the milestone list being edited, and the save that
    appends the new goal to the stored goals. */
module AddGoal {
  import opened Common
  import opened Calendar
  import opened Text
  import opened Records
  import opened Storage
  import Goals

  /** `handleDeleteMilestone`'s filter: drops every milestone with the id. */
  function WithoutMilestone(milestones: seq<Milestone>, milestoneId: Id): (r: seq<Milestone>)
    ensures forall m :: m in r <==> m in milestones && m.id != milestoneId
  {
    Filter(milestones, (m: Milestone) => m.id != milestoneId)
  }

  /** The new goal: not completed, filed under the category's name. */
  function NewGoal(id: Id, name: string, description: string, category: Category,
                   today: Day, deadline: Day, milestones: seq<Milestone>): (g: Goal)
    ensures g.id == id && g.name == name && g.description == description
    ensures g.category == category.name && g.startDate == today && g.deadline == deadline
    ensures g.milestones == milestones && !g.completed
  {
    Goal(id, name, description, category.name, today, deadline, milestones, false)
  }

  /** A goal saved with at least one milestone, none of them completed, has a
      flag that agrees with its milestones. */
  lemma NewGoalConsistent(id: Id, name: string, description: string, category: Category,
                          today: Day, deadline: Day, milestones: seq<Milestone>)
    requires |milestones| > 0 && forall i :: 0 <= i < |milestones| ==> !milestones[i].completed
    ensures Goals.Consistent(NewGoal(id, name, description, category, today, deadline, milestones))
  {
    assert !milestones[0].completed;
  }

  /** The add-goal form's state. */
  class AddGoalForm {
    var name: string
    var description: string
    var selectedCategory: Option<Category>
    var milestones: seq<Milestone>
    var milestoneInput: string
    var deadline: Day

    /** Every milestone the form holds was added as not completed. */
    predicate Valid()
      reads this
    {
      forall i :: 0 <= i < |milestones| ==> !milestones[i].completed
    }

    /** The deadline picker starts on today. */
    constructor (today: Day)
      ensures Valid()
      ensures name == "" && description == "" && selectedCategory == None
      ensures milestones == [] && milestoneInput == "" && deadline == today
    {
      name, description := "", "";
      selectedCategory := None;
      milestones := [];
      milestoneInput := "";
      deadline := today;
    }

    /** Tapping one of the category tiles. */
    method SelectCategory(c: Category)
      modifies this`selectedCategory
      ensures selectedCategory == Some(c)
    {
      selectedCategory := Some(c);
    }

    /** The deadline picker's `onChange`: a picked day becomes the deadline;
        dismissing the picker, which gives no date, keeps it. */
    method PickDeadline(date: Option<Day>)
      modifies this`deadline
      ensures date.Some? ==> deadline == date.value
      ensures date.None? ==> deadline == old(deadline)
    {
      if date.Some? {
        deadline := date.value;
      }
    }

    /** `handleAddMilestone`: a blank input is ignored; otherwise the untrimmed
        input is appended as a milestone not completed and the input cleared. */
    method HandleAddMilestone(id: Id)
      requires Valid()
      modifies this`milestones, this`milestoneInput
      ensures Valid()
      ensures IsBlank(old(milestoneInput)) ==> milestones == old(milestones) && milestoneInput == old(milestoneInput)
      ensures !IsBlank(old(milestoneInput)) ==>
        milestones == old(milestones) + [Milestone(id, old(milestoneInput), false)] && milestoneInput == ""
    {
      if !IsBlank(milestoneInput) {
        milestones := milestones + [Milestone(id, milestoneInput, false)];
        milestoneInput := "";
      }
    }

    /** `handleDeleteMilestone`. */
    method HandleDeleteMilestone(milestoneId: Id)
      requires Valid()
      modifies this`milestones
      ensures Valid()
      ensures milestones == WithoutMilestone(old(milestones), milestoneId)
    {
      milestones := WithoutMilestone(milestones, milestoneId);
    }

    /** `handleSaveGoal`: an empty name, no category or no milestone is
        rejected and nothing is written; otherwise the new goal, whose flag
        agrees with its milestones, is appended after the stored goals. */
    method HandleSaveGoal(store: Store, id: Id, today: Day) returns (saved: bool)
      requires Valid()
      modifies store`goals
      ensures saved == (name != "" && selectedCategory.Some? && |milestones| > 0)
      ensures !saved ==> store.goals == old(store.goals)
      ensures saved ==> (store.goals ==
        old(store.goals) + [NewGoal(id, name, description, selectedCategory.value, today, deadline, milestones)])
      ensures saved ==> Goals.Consistent(store.goals[|store.goals| - 1])
    {
      if name == "" || selectedCategory.None? || |milestones| == 0 {
        return false;
      }
      var goal := NewGoal(id, name, description, selectedCategory.value, today, deadline, milestones);
      NewGoalConsistent(id, name, description, selectedCategory.value, today, deadline, milestones);
      store.goals := store.goals + [goal];
      return true;
    }
  }
}
