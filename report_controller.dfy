/**
 * health_cli/controllers/report_con.py: the daily report of one user's
 * intake and the seven-day summary grouped by date.
 */
module ReportControl {
  import opened Prelude
  import opened Schema

  /** The dictionary `daily_report` returns. */
  datatype DayReport = DayReport(date: Day, totalCalories: int, goal: Option<int>, entries: seq<FoodEntry>)

  /** The dictionary `weekly_summary` returns. */
  datatype WeekSummary = WeekSummary(weekStart: Day, weekEnd: Day, dailyTotals: map<Day, int>, weeklyTotal: int)

  /** `totals[lo] + ... + totals[hi]` (zero when `hi < lo`). */
  function SumDays(totals: map<Day, int>, lo: Day, hi: Day): int
    requires forall d :: lo <= d <= hi ==> d in totals
    decreases hi - lo
  {
    if hi < lo then 0 else SumDays(totals, lo, hi - 1) + totals[hi]
  }

  /**
   * Summing per-day totals over a range of days gives the total of the
   * user's entries dated in that range.
   */
  lemma {:induction false} SumDaysIsRangeTotal(entries: seq<FoodEntry>, userId: nat, totals: map<Day, int>, lo: Day, hi: Day)
    requires forall d :: lo <= d <= hi ==> d in totals && totals[d] == DayTotal(entries, userId, d)
    ensures SumDays(totals, lo, hi) == TotalCalories(EntriesIn(entries, userId, lo, hi))
    decreases hi - lo
  {
    if hi < lo {
      EmptyRange(entries, userId, lo, hi);
    } else {
      SumDaysIsRangeTotal(entries, userId, totals, lo, hi - 1);
      SplitLastDay(entries, userId, lo, hi);
    }
  }

  /** `sum(totals.values())` for a mapping whose keys are the days `lo` to `hi`. */
  method SumValues(totals: map<Day, int>, lo: Day, hi: Day) returns (sum: int)
    requires forall d :: lo <= d <= hi ==> d in totals
    ensures sum == SumDays(totals, lo, hi)
  {
    sum := 0;
    var day := lo;
    while day <= hi
      invariant lo <= day <= if hi < lo then lo else hi + 1
      invariant sum == SumDays(totals, lo, day - 1)
    {
      sum := sum + totals[day];
      day := day + 1;
    }
  }

  /** `ReportGenerator`: reports over the session `db`. */
  class ReportGenerator {
    const db: Db

    constructor (db: Db)
      ensures this.db == db
    {
      this.db := db;
    }

    /**
     * `daily_report`: exactly the user's entries on the day, their calorie
     * sum, and the user's daily target when the user has a goal.
     */
    function DailyReport(userId: nat, reportDate: Day): (r: DayReport)
      reads db
      ensures r.date == reportDate
      ensures forall e :: e in r.entries <==> e in db.entries && e.userId == Some(userId) && e.date == reportDate
      ensures r.totalCalories == TotalCalories(r.entries)
      ensures r.entries == [] ==> r.totalCalories == 0
      ensures r.goal.Some? <==> exists g :: g in db.goals && g.userId == Some(userId)
      ensures OneGoalPerUser(db.goals) ==>
        forall i :: 0 <= i < |db.goals| && db.goals[i].userId == Some(userId) ==> r.goal == Some(db.goals[i].dailyCalories)
    {
      var entries := EntriesOn(db.entries, userId, reportDate);
      var goal := GoalOf(db.goals, userId);
      TheGoalsTarget(db.goals, userId);
      DayReport(reportDate, TotalCalories(entries), if goal.Some? then Some(goal.value.dailyCalories) else None, entries)
    }

    /**
     * `weekly_summary`: the week ends six days after it starts; each of the
     * seven days has the total of the user's entries dated that day (zero
     * when there are none); the weekly total is the sum of the daily totals,
     * which is the total of the user's entries in the week.
     */
    method WeeklySummary(userId: nat, startDate: Day) returns (r: WeekSummary)
      ensures r.weekStart == startDate && r.weekEnd == startDate + 6
      ensures forall d :: d in r.dailyTotals <==> startDate <= d <= startDate + 6
      ensures forall d :: d in r.dailyTotals ==> r.dailyTotals[d] == DayTotal(db.entries, userId, d)
      ensures r.weeklyTotal == SumDays(r.dailyTotals, startDate, startDate + 6)
      ensures r.weeklyTotal == TotalCalories(EntriesIn(db.entries, userId, startDate, startDate + 6))
    {
      var endDate := startDate + 6;
      var entries := EntriesIn(db.entries, userId, startDate, endDate);

      var dailyTotals: map<Day, int> := map[];
      var currentDate := startDate;
      while currentDate <= endDate
        invariant startDate <= currentDate <= endDate + 1
        invariant forall d :: d in dailyTotals <==> startDate <= d < currentDate
        invariant forall d :: d in dailyTotals ==> dailyTotals[d] == TotalCalories(OnDay(entries, d))
      {
        var dailyEntries := OnDay(entries, currentDate);
        dailyTotals := dailyTotals[currentDate := TotalCalories(dailyEntries)];
        currentDate := currentDate + 1;
      }
      GroupedTotals(db.entries, userId, startDate, endDate, dailyTotals);

      var weeklyTotal := SumValues(dailyTotals, startDate, endDate);
      SumDaysIsRangeTotal(db.entries, userId, dailyTotals, startDate, endDate);
      r := WeekSummary(startDate, endDate, dailyTotals, weeklyTotal);
    }
  }

  /** Grouping the week's entries by date gives each day's total. */
  lemma GroupedTotals(entries: seq<FoodEntry>, userId: nat, lo: Day, hi: Day, totals: map<Day, int>)
    requires forall d :: d in totals ==> lo <= d <= hi
    requires forall d :: d in totals ==> totals[d] == TotalCalories(OnDay(EntriesIn(entries, userId, lo, hi), d))
    ensures forall d :: d in totals ==> totals[d] == DayTotal(entries, userId, d)
  {
    forall d | d in totals
      ensures totals[d] == DayTotal(entries, userId, d)
    {
      OnDayOfRange(entries, userId, lo, hi, d);
    }
  }

  /** Under the goal constraint, the goal found is the target of every goal row of the user. */
  lemma TheGoalsTarget(goals: seq<Goal>, userId: nat)
    ensures OneGoalPerUser(goals) ==>
      forall i :: 0 <= i < |goals| && goals[i].userId == Some(userId) ==> GoalOf(goals, userId) == Some(goals[i])
  {
    if OneGoalPerUser(goals) {
      forall i | 0 <= i < |goals| && goals[i].userId == Some(userId)
        ensures GoalOf(goals, userId) == Some(goals[i])
      {
        GoalOfIsTheGoal(goals, i);
      }
    }
  }
}
