/**
 * health_cli/models/report_model.py: `NutritionReporter`, the daily
 * report data and the rows of the table that displays it.
 */
module NutritionReport {
  import opened Prelude
  import opened Schema

  /** The dictionary `daily_report` returns (`calories` is the day's sum). */
  datatype DayData = DayData(date: Day, calories: int, goal: Option<int>, entries: seq<FoodEntry>)

  /** One table row: the Food column (a food, "TOTAL" or "GOAL") and the Calories column. */
  datatype Row = Row(food: string, calories: int)

  /** Python truthiness of the goal field: None and 0 are both false. */
  predicate GoalShown(goal: Option<int>) {
    goal.Some? && goal.value != 0
  }

  /** Sum of the calorie column of some rows. */
  function RowsTotal(rows: seq<Row>): int {
    if rows == [] then 0 else RowsTotal(rows[..|rows| - 1]) + rows[|rows| - 1].calories
  }

  /**
   * `daily_report(db, user_id, day)`: the requested day, exactly the
   * user's entries on that day with their calorie sum, and the user's
   * daily target when the user has a goal.
   */
  function DailyReport(db: Db, userId: nat, day: Day): (r: DayData)
    reads db
    ensures r.date == day
    ensures forall e :: e in r.entries <==> e in db.entries && e.userId == Some(userId) && e.date == day
    ensures r.calories == TotalCalories(r.entries)
    ensures r.goal.Some? <==> GoalOf(db.goals, userId).Some?
    ensures r.goal.Some? ==> r.goal.value == GoalOf(db.goals, userId).value.dailyCalories
  {
    var entries := EntriesOn(db.entries, userId, day);
    var goal := GoalOf(db.goals, userId);
    DayData(day, TotalCalories(entries), if goal.Some? then Some(goal.value.dailyCalories) else None, entries)
  }

  /**
   * `show_report(data)`: one row per entry in the given order, then the
   * TOTAL row carrying `data.calories`, then a GOAL row only when the goal
   * is truthy. For data built by `daily_report` the TOTAL row is the sum
   * of the rows above it.
   */
  method ShowReport(data: DayData) returns (rows: seq<Row>)
    ensures |rows| == |data.entries| + (if GoalShown(data.goal) then 2 else 1)
    ensures forall i :: 0 <= i < |data.entries| ==> rows[i] == Row(data.entries[i].food, data.entries[i].calories)
    ensures rows[|data.entries|] == Row("TOTAL", data.calories)
    ensures GoalShown(data.goal) ==> rows[|data.entries| + 1] == Row("GOAL", data.goal.value)
    ensures data.calories == TotalCalories(data.entries) ==> rows[|data.entries|].calories == RowsTotal(rows[..|data.entries|])
  {
    rows := [];
    for i := 0 to |data.entries|
      invariant |rows| == i
      invariant forall k :: 0 <= k < i ==> rows[k] == Row(data.entries[k].food, data.entries[k].calories)
      invariant RowsTotal(rows) == TotalCalories(data.entries[..i])
    {
      var entry := data.entries[i];
      assert data.entries[..i + 1][..i] == data.entries[..i];
      assert (rows + [Row(entry.food, entry.calories)])[..i] == rows;
      rows := rows + [Row(entry.food, entry.calories)];
    }
    assert data.entries[..|data.entries|] == data.entries;
    ghost var entryRows := rows;
    rows := rows + [Row("TOTAL", data.calories)];
    if GoalShown(data.goal) {
      rows := rows + [Row("GOAL", data.goal.value)];
    }
    assert rows[..|data.entries|] == entryRows;
  }
}
