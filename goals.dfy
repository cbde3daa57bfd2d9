/** The goals screen: milestone toggling with the goal's derived completion
    flag, the progress percentage, the completed/uncompleted split and goal
    deletion. */
module Goals {
  import opened Common
  import opened Percent
  import opened Records
  import opened Storage

  /** `milestones.every(m => m.completed)`. */
  predicate AllCompleted(milestones: seq<Milestone>)
  {
    forall i :: 0 <= i < |milestones| ==> milestones[i].completed
  }

  /** A goal whose stored flag agrees with its milestones. */
  predicate Consistent(g: Goal)
  {
    g.completed == AllCompleted(g.milestones)
  }

  /** The milestones after toggling `milestoneId`: exactly the milestones with
      that id have `completed` flipped; ids, names and order are kept. */
  function ToggleMilestones(milestones: seq<Milestone>, milestoneId: Id): (r: seq<Milestone>)
    ensures |r| == |milestones|
    ensures forall i :: 0 <= i < |r| ==>
      r[i].id == milestones[i].id && r[i].name == milestones[i].name
    ensures forall i :: 0 <= i < |r| ==>
      r[i].completed == (if milestones[i].id == milestoneId then !milestones[i].completed else milestones[i].completed)
  {
    seq(|milestones|, i requires 0 <= i < |milestones| =>
      if milestones[i].id == milestoneId
      then milestones[i].(completed := !milestones[i].completed)
      else milestones[i])
  }

  /** `toggleMilestone`'s `goals.map(...)`: each goal with the id gets its
      milestones toggled and its flag recomputed from them; every other goal,
      flag included, is kept as stored. */
  function ToggleGoals(goals: seq<Goal>, goalId: Id, milestoneId: Id): (r: seq<Goal>)
    ensures |r| == |goals|
    ensures forall i :: 0 <= i < |goals| && goals[i].id != goalId ==> r[i] == goals[i]
    ensures forall i :: 0 <= i < |goals| && goals[i].id == goalId ==>
      r[i].milestones == ToggleMilestones(goals[i].milestones, milestoneId)
      && Consistent(r[i])
      && r[i] == goals[i].(milestones := r[i].milestones, completed := r[i].completed)
  {
    seq(|goals|, i requires 0 <= i < |goals| =>
      if goals[i].id == goalId
      then
        var ms := ToggleMilestones(goals[i].milestones, milestoneId);
        goals[i].(milestones := ms, completed := AllCompleted(ms))
      else goals[i])
  }

  /** The number of completed milestones. */
  function CompletedCount(milestones: seq<Milestone>): (r: nat)
    ensures r <= |milestones|
    ensures r == |milestones| <==> AllCompleted(milestones)
    ensures r == 0 <==> forall i :: 0 <= i < |milestones| ==> !milestones[i].completed
    ensures r == |Filter(milestones, (m: Milestone) => m.completed)|
  {
    if milestones == [] then 0
    else (if milestones[0].completed then 1 else 0) + CompletedCount(milestones[1..])
  }

  /** `calculateProgress`: the rounded percentage of completed milestones;
      `None` for an empty list, where the division gives NaN. */
  function Progress(milestones: seq<Milestone>): (r: Option<nat>)
    ensures r.Some? <==> |milestones| > 0
    ensures r.Some? ==> r.value <= 100
    ensures r.Some? && AllCompleted(milestones) ==> r.value == 100
    ensures r.Some? && CompletedCount(milestones) == 0 ==> r.value == 0
    ensures r.Some? ==>
      var done, total := CompletedCount(milestones), |milestones|;
      2 * total * r.value <= 200 * done + total < 2 * total * (r.value + 1)
  {
    if |milestones| == 0 then None
    else
      RoundPercentBounds(CompletedCount(milestones), |milestones|);
      Some(RoundPercent(CompletedCount(milestones), |milestones|))
  }

  /** `completedGoals`. */
  function CompletedGoals(goals: seq<Goal>): (r: seq<Goal>)
    ensures forall g :: g in r <==> g in goals && g.completed
  {
    Filter(goals, (g: Goal) => g.completed)
  }

  /** `uncompletedGoals`. */
  function UncompletedGoals(goals: seq<Goal>): (r: seq<Goal>)
    ensures forall g :: g in r <==> g in goals && !g.completed
  {
    Filter(goals, (g: Goal) => !g.completed)
  }

  /** `deleteGoal`'s filter: drops every goal with the id. */
  function WithoutGoal(goals: seq<Goal>, goalId: Id): (r: seq<Goal>)
    ensures forall g :: g in r <==> g in goals && g.id != goalId
  {
    Filter(goals, (g: Goal) => g.id != goalId)
  }

  /** The two lists shown on the screen split the goals: every goal is in
      exactly one, as often as it occurs. */
  lemma GoalsPartition(goals: seq<Goal>)
    ensures multiset(CompletedGoals(goals)) + multiset(UncompletedGoals(goals)) == multiset(goals)
    ensures |CompletedGoals(goals)| + |UncompletedGoals(goals)| == |goals|
  {
    FilterPartition(goals, (g: Goal) => g.completed, (g: Goal) => !g.completed);
  }

  /** Each list keeps the stored order: splitting the goals anywhere splits
      both lists at the same place. */
  lemma GoalsPartitionOrder(a: seq<Goal>, b: seq<Goal>)
    ensures CompletedGoals(a + b) == CompletedGoals(a) + CompletedGoals(b)
    ensures UncompletedGoals(a + b) == UncompletedGoals(a) + UncompletedGoals(b)
  {
    FilterConcat(a, b, (g: Goal) => g.completed);
    FilterConcat(a, b, (g: Goal) => !g.completed);
  }

  /** Toggling a milestone twice restores the milestone list. */
  lemma ToggleMilestonesTwice(milestones: seq<Milestone>, milestoneId: Id)
    ensures ToggleMilestones(ToggleMilestones(milestones, milestoneId), milestoneId) == milestones
  {
    var r := ToggleMilestones(ToggleMilestones(milestones, milestoneId), milestoneId);
    assert forall i :: 0 <= i < |r| ==> r[i] == milestones[i];
  }

  /** Toggling a milestone twice restores every goal whose flag agreed with
      its milestones beforehand. */
  lemma {:induction false} ToggleGoalsTwice(goals: seq<Goal>, goalId: Id, milestoneId: Id)
    requires forall i :: 0 <= i < |goals| && goals[i].id == goalId ==> Consistent(goals[i])
    ensures ToggleGoals(ToggleGoals(goals, goalId, milestoneId), goalId, milestoneId) == goals
  {
    var once := ToggleGoals(goals, goalId, milestoneId);
    var twice := ToggleGoals(once, goalId, milestoneId);
    forall i | 0 <= i < |goals|
      ensures twice[i] == goals[i]
    {
      if goals[i].id == goalId {
        ToggleMilestonesTwice(goals[i].milestones, milestoneId);
      }
    }
  }

  /** A toggle keeps every goal's flag in agreement with its milestones when
      it was so before: the flag of the goal toggled is recomputed, and no
      other goal is touched. */
  lemma ToggleGoalsKeepsConsistent(goals: seq<Goal>, goalId: Id, milestoneId: Id)
    requires forall i :: 0 <= i < |goals| ==> Consistent(goals[i])
    ensures forall i :: 0 <= i < |goals| ==> Consistent(ToggleGoals(goals, goalId, milestoneId)[i])
  {
  }

  /** Rounding can show 100% for a goal that is not completed: 199 of 200
      milestones round up to 100. */
  lemma ProgressRoundsUpBeforeCompletion()
    ensures RoundPercent(199, 200) == 100
  {
  }

  /** The goals screen's state: the loaded goals. */
  class GoalsScreen {
    var goals: seq<Goal>

    /** The screen opens with no goals loaded yet. */
    constructor ()
      ensures goals == []
    {
      goals := [];
    }

    /** `fetchGoals`: the stored goals, `[]` when none are stored. */
    method FetchGoals(store: Store)
      modifies this`goals
      ensures goals == store.goals
    {
      goals := store.goals;
    }

    /** `toggleMilestone`: unlike habits and routines there is no "today only" rule; the collection is written. */
    method ToggleMilestone(store: Store, goalId: Id, milestoneId: Id)
      modifies this`goals, store`goals
      ensures goals == ToggleGoals(old(goals), goalId, milestoneId) && store.goals == goals
    {
      goals := ToggleGoals(goals, goalId, milestoneId);
      store.goals := goals;
    }

    /** `deleteGoal`, once confirmed. */
    method DeleteGoal(store: Store, goalId: Id)
      modifies this`goals, store`goals
      ensures goals == WithoutGoal(old(goals), goalId) && store.goals == goals
    {
      goals := WithoutGoal(goals, goalId);
      store.goals := goals;
    }
  }
}
