/**
 * health_cli/controllers/goal_con.py: setting a user's calorie goals
 * (create or update) and comparing an intake against them.
 */
module GoalControl {
  import opened Prelude
  import opened Schema

  /** One line of the progress report: the target and what is left of it. */
  datatype Figure = Figure(target: int, remaining: int)

  /** The result of `check_progress`: the daily and the weekly figure. */
  datatype Progress = Progress(daily: Figure, weekly: Figure)

  /**
   * `remaining` is what is left of `target` after `current`, never below
   * zero: an overage is reported as nothing left, not as a negative amount.
   */
  predicate Clamped(f: Figure, current: int) {
    && f.remaining >= 0
    && f.remaining >= f.target - current
    && (f.remaining == 0 || f.remaining == f.target - current)
  }

  /**
   * The goals table after `set_goals(userId, daily, weekly)`: the user's
   * existing goal row is overwritten in place, or a row with the fresh id
   * `freshId` is appended when the user has none.
   */
  function Upserted(goals: seq<Goal>, userId: nat, daily: int, weekly: int, freshId: nat): seq<Goal> {
    match GoalIndex(goals, userId)
    case Some(i) => goals[i := goals[i].(dailyCalories := daily, weeklyCalories := weekly)]
    case None => goals + [Goal(freshId, daily, weekly, Some(userId))]
  }

  /** An existing goal is updated in place: no row is added and the row keeps its id. */
  lemma SetGoalsUpdatesInPlace(goals: seq<Goal>, userId: nat, daily: int, weekly: int, freshId: nat)
    requires GoalOf(goals, userId).Some?
    ensures var r := Upserted(goals, userId, daily, weekly, freshId);
      && |r| == |goals|
      && GoalOf(r, userId) == Some(GoalOf(goals, userId).value.(dailyCalories := daily, weeklyCalories := weekly))
  {
    var i := GoalIndex(goals, userId).value;
    var r := Upserted(goals, userId, daily, weekly, freshId);
    GoalIndexAt(r, userId, i);
  }

  /** A user without a goal gets exactly one new row carrying the given values. */
  lemma SetGoalsInserts(goals: seq<Goal>, userId: nat, daily: int, weekly: int, freshId: nat)
    requires GoalOf(goals, userId).None?
    ensures var r := Upserted(goals, userId, daily, weekly, freshId);
      && r == goals + [Goal(freshId, daily, weekly, Some(userId))]
      && GoalOf(r, userId) == Some(Goal(freshId, daily, weekly, Some(userId)))
  {
    var r := Upserted(goals, userId, daily, weekly, freshId);
    GoalIndexAt(r, userId, |goals|);
  }

  /** After `set_goals(u, d, w)` the goal of `u` holds `d` and `w`. */
  lemma SetGoalsSetsValues(goals: seq<Goal>, userId: nat, daily: int, weekly: int, freshId: nat)
    ensures var g := GoalOf(Upserted(goals, userId, daily, weekly, freshId), userId);
      g.Some? && g.value.dailyCalories == daily && g.value.weeklyCalories == weekly
  {
    if GoalOf(goals, userId).Some? {
      SetGoalsUpdatesInPlace(goals, userId, daily, weekly, freshId);
    } else {
      SetGoalsInserts(goals, userId, daily, weekly, freshId);
    }
  }

  /** Every goal row of another user is left as it was, and so is their lookup. */
  lemma SetGoalsLeavesOthers(goals: seq<Goal>, userId: nat, daily: int, weekly: int, freshId: nat, other: nat)
    requires other != userId
    ensures var r := Upserted(goals, userId, daily, weekly, freshId);
      && (forall k :: 0 <= k < |goals| && goals[k].userId != Some(userId) ==> r[k] == goals[k])
      && GoalOf(r, other) == GoalOf(goals, other)
  {
    var r := Upserted(goals, userId, daily, weekly, freshId);
    assert forall k :: 0 <= k < |goals| ==> r[k].userId == goals[k].userId;
    match GoalIndex(goals, other)
    case Some(i) => GoalIndexAt(r, other, i);
    case None =>
      assert forall k :: 0 <= k < |r| ==> r[k].userId != Some(other);
  }

  /** `set_goals` keeps the one-goal-per-user constraint. */
  lemma SetGoalsKeepsOneGoal(goals: seq<Goal>, userId: nat, daily: int, weekly: int, freshId: nat)
    requires OneGoalPerUser(goals)
    ensures OneGoalPerUser(Upserted(goals, userId, daily, weekly, freshId))
  {
    var r := Upserted(goals, userId, daily, weekly, freshId);
    assert forall k :: 0 <= k < |goals| ==> r[k].userId == goals[k].userId;
  }

  /**
   * Calling `set_goals` twice for the same user leaves exactly one goal for
   * that user, holding the second call's values.
   */
  lemma SetGoalsTwice(goals: seq<Goal>, userId: nat, d1: int, w1: int, id1: nat, d2: int, w2: int, id2: nat)
    requires OneGoalPerUser(goals)
    ensures var r := Upserted(Upserted(goals, userId, d1, w1, id1), userId, d2, w2, id2);
      && OneGoalPerUser(r)
      && (exists i :: 0 <= i < |r| && r[i].userId == Some(userId))
      && forall i :: 0 <= i < |r| && r[i].userId == Some(userId) ==> r[i].dailyCalories == d2 && r[i].weeklyCalories == w2
  {
    var r1 := Upserted(goals, userId, d1, w1, id1);
    var r := Upserted(r1, userId, d2, w2, id2);
    SetGoalsKeepsOneGoal(goals, userId, d1, w1, id1);
    SetGoalsKeepsOneGoal(r1, userId, d2, w2, id2);
    SetGoalsSetsValues(r1, userId, d2, w2, id2);
    forall i | 0 <= i < |r| && r[i].userId == Some(userId)
      ensures r[i].dailyCalories == d2 && r[i].weeklyCalories == w2
    {
      GoalOfIsTheGoal(r, i);
    }
  }

  /** `GoalController`: goals of the users in the session `db`. */
  class GoalController {
    const db: Db

    constructor (db: Db)
      ensures this.db == db
    {
      this.db := db;
    }

    /** `set_goals`: update the user's goal in place, or add one, then commit. */
    method SetGoals(userId: nat, daily: int, weekly: int) returns (goal: Goal)
      requires db.Valid()
      modifies db
      ensures db.Valid()
      ensures db.goals == Upserted(old(db.goals), userId, daily, weekly, old(db.nextId))
      ensures GoalOf(db.goals, userId) == Some(goal)
      ensures goal.userId == Some(userId) && goal.dailyCalories == daily && goal.weeklyCalories == weekly
      ensures db.users == old(db.users) && db.entries == old(db.entries)
    {
      match GoalIndex(db.goals, userId)
      case Some(i) =>
        SetGoalsUpdatesInPlace(db.goals, userId, daily, weekly, db.nextId);
        goal := db.goals[i].(dailyCalories := daily, weeklyCalories := weekly);
        db.goals := db.goals[i := goal];
      case None =>
        SetGoalsInserts(db.goals, userId, daily, weekly, db.nextId);
        goal := db.AddGoal(daily, weekly, Some(userId));
    }

    /**
     * `check_progress`: None exactly when the user has no goal; otherwise
     * both targets, each with what remains of it after the same intake.
     */
    function CheckProgress(userId: nat, currentCalories: int): (r: Option<Progress>)
      reads db
      ensures r.None? <==> GoalOf(db.goals, userId).None?
      ensures r.Some? ==>
        var g := GoalOf(db.goals, userId).value;
        && r.value.daily.target == g.dailyCalories
        && r.value.weekly.target == g.weeklyCalories
        && Clamped(r.value.daily, currentCalories)
        && Clamped(r.value.weekly, currentCalories)
    {
      match GoalOf(db.goals, userId)
      case None => None
      case Some(g) =>
        Some(Progress(
          Figure(g.dailyCalories, if g.dailyCalories - currentCalories > 0 then g.dailyCalories - currentCalories else 0),
          Figure(g.weeklyCalories, if g.weeklyCalories - currentCalories > 0 then g.weeklyCalories - currentCalories else 0)))
    }
  }

  /** Right after `set_goals(u, d, w)`, `check_progress(u, c)` reports the targets `d` and `w`. */
  lemma ProgressAfterSetGoals(c: GoalController, oldGoals: seq<Goal>, userId: nat, daily: int, weekly: int, freshId: nat, current: int)
    requires c.db.goals == Upserted(oldGoals, userId, daily, weekly, freshId)
    ensures var p := c.CheckProgress(userId, current);
      && p.Some?
      && p.value.daily.target == daily && p.value.weekly.target == weekly
      && p.value.daily.remaining == (if daily > current then daily - current else 0)
      && p.value.weekly.remaining == (if weekly > current then weekly - current else 0)
  {
    SetGoalsSetsValues(oldGoals, userId, daily, weekly, freshId);
  }
}
