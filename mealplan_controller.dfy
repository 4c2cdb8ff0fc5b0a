/**
 * health_cli/controllers/mealplan_con.py: creating a week's meal-plan
 * template once per (user, start date) and listing it day by day. The
 * plan rows have this controller's own shape: a start and an end date
 * and a per-date mapping of meal slots.
 */
module MealPlanControl {
  import opened Prelude
  import opened Schema

  /** A plan row as this controller builds and reads it. */
  datatype WeekPlan = WeekPlan(id: nat, userId: nat, startDate: Day, endDate: Day, meals: Option<Meals>)

  /** One displayed row: the day, then its breakfast, lunch and dinner. */
  datatype DayRow = DayRow(day: Day, breakfast: string, lunch: string, dinner: string)

  /** What `display_plan` ends with. */
  datatype Display =
    | NoPlan                   // "No plan found for this week"
    | MealsMissing             // `plan.meals.get` on a plan whose mapping is None
    | Shown(rows: seq<DayRow>) // the table printed

  /** `filter_by(user_id=userId, start_date=startDate).first()` */
  function FindPlan(plans: seq<WeekPlan>, userId: nat, startDate: Day): (r: Option<WeekPlan>)
    ensures r.None? <==> forall p :: p in plans ==> !(p.userId == userId && p.startDate == startDate)
    ensures r.Some? ==> r.value in plans && r.value.userId == userId && r.value.startDate == startDate
  {
    if plans == [] then None
    else if plans[0].userId == userId && plans[0].startDate == startDate then Some(plans[0])
    else FindPlan(plans[1..], userId, startDate)
  }

  /** No two plans of one user start on the same day. */
  predicate OnePlanPerWeek(plans: seq<WeekPlan>) {
    forall i, j :: 0 <= i < j < |plans| ==> plans[i].userId != plans[j].userId || plans[i].startDate != plans[j].startDate
  }

  /** A plan appended for a week that had none is the one found for that week. */
  lemma {:induction false} FindPlanAfterAdd(plans: seq<WeekPlan>, p: WeekPlan)
    requires FindPlan(plans, p.userId, p.startDate).None?
    ensures FindPlan(plans + [p], p.userId, p.startDate) == Some(p)
  {
    if plans != [] {
      assert (plans + [p])[1..] == plans[1..] + [p];
      FindPlanAfterAdd(plans[1..], p);
    }
  }

  /** `meals.get(day, {}).get(slot, "-")`: the slot's text, or "-" when it is not filled. */
  function Slot(meals: Meals, day: Day, slot: string): string {
    if day in meals && slot in meals[day] then meals[day][slot] else "-"
  }

  /** The meal-plan table of the session; ids are drawn from `nextId`. */
  class PlanDb {
    var plans: seq<WeekPlan>
    var nextId: nat

    ghost predicate Valid()
      reads this
    {
      && 1 <= nextId
      && (forall i :: 0 <= i < |plans| ==> 1 <= plans[i].id < nextId)
      && (forall i, j :: 0 <= i < j < |plans| ==> plans[i].id != plans[j].id)
    }

    constructor ()
      ensures Valid() && plans == []
    {
      plans, nextId := [], 1;
    }

    /** `db.add(plan); db.commit()` */
    method AddPlan(userId: nat, startDate: Day, endDate: Day, meals: Option<Meals>) returns (plan: WeekPlan)
      requires Valid()
      modifies this
      ensures Valid()
      ensures plan == WeekPlan(old(nextId), userId, startDate, endDate, meals)
      ensures plans == old(plans) + [plan]
    {
      plan := WeekPlan(nextId, userId, startDate, endDate, meals);
      plans := plans + [plan];
      nextId := nextId + 1;
    }
  }

  /** `MealPlanController`: meal plans in the session `db`. */
  class MealPlanController {
    const db: PlanDb

    constructor (db: PlanDb)
      ensures this.db == db
    {
      this.db := db;
    }

    /**
     * `create_plan` as the source writes it: the new plan is given no
     * meals mapping, so its `meals` column is None.
     */
    method CreatePlanAsWritten(userId: nat, startDate: Day, days: int := 7) returns (plan: WeekPlan)
      requires db.Valid()
      modifies db
      ensures db.Valid()
      ensures FindPlan(old(db.plans), userId, startDate).Some? ==>
        plan == FindPlan(old(db.plans), userId, startDate).value && db.plans == old(db.plans)
      ensures FindPlan(old(db.plans), userId, startDate).None? ==>
        && plan == WeekPlan(old(db.nextId), userId, startDate, startDate + days - 1, None)
        && db.plans == old(db.plans) + [plan]
    {
      var existing := FindPlan(db.plans, userId, startDate);
      if existing.Some? {
        return existing.value;
      }
      plan := db.AddPlan(userId, startDate, startDate + (days - 1), None);
    }

    /**
     * `create_plan`: when the user already has a plan starting that day it
     * is returned unchanged and nothing is added; otherwise one plan is
     * added, ending `days - 1` days after it starts, with an empty meals
     * mapping. Either way the plan returned is the one found for that week
     * afterwards, and no second plan for a week is ever created.
     */
    method CreatePlan(userId: nat, startDate: Day, days: int := 7) returns (plan: WeekPlan)
      requires db.Valid()
      modifies db
      ensures db.Valid()
      ensures FindPlan(old(db.plans), userId, startDate).Some? ==>
        plan == FindPlan(old(db.plans), userId, startDate).value && db.plans == old(db.plans)
      ensures FindPlan(old(db.plans), userId, startDate).None? ==>
        && plan == WeekPlan(old(db.nextId), userId, startDate, startDate + days - 1, Some(map[]))
        && db.plans == old(db.plans) + [plan]
      ensures FindPlan(db.plans, userId, startDate) == Some(plan)
      ensures |old(db.plans)| <= |db.plans| <= |old(db.plans)| + 1
      ensures OnePlanPerWeek(old(db.plans)) ==> OnePlanPerWeek(db.plans)
    {
      var existing := FindPlan(db.plans, userId, startDate);
      if existing.Some? {
        return existing.value;
      }
      plan := db.AddPlan(userId, startDate, startDate + (days - 1), Some(map[]));
      FindPlanAfterAdd(old(db.plans), plan);
    }

    /**
     * `display_plan`: no rows when the user has no plan starting
     * `weekStart`; otherwise one row per day from `weekStart` to the plan's
     * end date inclusive, in increasing date order, each slot showing its
     * text or "-" when it is not filled. A plan whose meals mapping is None
     * fails on its first day, as `None.get` does.
     */
    method DisplayPlan(userId: nat, weekStart: Day) returns (out: Display)
      ensures FindPlan(db.plans, userId, weekStart).None? <==> out == NoPlan
      ensures out == MealsMissing <==>
        var found := FindPlan(db.plans, userId, weekStart);
        found.Some? && found.value.meals.None? && weekStart <= found.value.endDate
      ensures out.Shown? ==>
        var p := FindPlan(db.plans, userId, weekStart).value;
        && |out.rows| == (if p.endDate < weekStart then 0 else p.endDate - weekStart + 1)
        && forall i :: 0 <= i < |out.rows| ==>
             && p.meals.Some?
             && out.rows[i] == DayRow(weekStart + i,
                                      Slot(p.meals.value, weekStart + i, "breakfast"),
                                      Slot(p.meals.value, weekStart + i, "lunch"),
                                      Slot(p.meals.value, weekStart + i, "dinner"))
    {
      var found := FindPlan(db.plans, userId, weekStart);
      if found.None? {
        return NoPlan;
      }
      var plan := found.value;
      var rows: seq<DayRow> := [];
      var currentDate := weekStart;
      while currentDate <= plan.endDate
        invariant weekStart <= currentDate
        invariant currentDate <= plan.endDate + 1 || currentDate == weekStart
        invariant plan.meals.None? ==> currentDate == weekStart
        invariant |rows| == currentDate - weekStart
        invariant forall i :: 0 <= i < |rows| ==>
          && plan.meals.Some?
          && rows[i] == DayRow(weekStart + i,
                               Slot(plan.meals.value, weekStart + i, "breakfast"),
                               Slot(plan.meals.value, weekStart + i, "lunch"),
                               Slot(plan.meals.value, weekStart + i, "dinner"))
        decreases plan.endDate - currentDate
      {
        if plan.meals.None? {
          return MealsMissing;
        }
        var meals: Slots := if currentDate in plan.meals.value then plan.meals.value[currentDate] else map[];
        var breakfast := if "breakfast" in meals then meals["breakfast"] else "-";
        var lunch := if "lunch" in meals then meals["lunch"] else "-";
        var dinner := if "dinner" in meals then meals["dinner"] else "-";
        rows := rows + [DayRow(currentDate, breakfast, lunch, dinner)];
        currentDate := currentDate + 1;
      }
      out := Shown(rows);
    }
  }

  /**
   * A week planned with the source's `create_plan` cannot be displayed:
   * the new plan has no meals mapping and the first day's lookup fails.
   */
  method CreateThenDisplayAsWritten(userId: nat, weekStart: Day) returns (out: Display)
    ensures out == MealsMissing
  {
    var db := new PlanDb();
    var controller := new MealPlanController(db);
    var _ := controller.CreatePlanAsWritten(userId, weekStart);
    out := controller.DisplayPlan(userId, weekStart);
  }

  /**
   * With an empty mapping to start from, a week planned with the default
   * seven days displays seven rows, `weekStart` to `weekStart + 6`, with
   * every slot shown as "-".
   */
  method CreateThenDisplay(userId: nat, weekStart: Day) returns (out: Display)
    ensures out.Shown? && |out.rows| == 7
    ensures forall i :: 0 <= i < 7 ==> out.rows[i] == DayRow(weekStart + i, "-", "-", "-")
  {
    var db := new PlanDb();
    var controller := new MealPlanController(db);
    var plan := controller.CreatePlan(userId, weekStart);
    assert plan.endDate == weekStart + 6;
    out := controller.DisplayPlan(userId, weekStart);
  }
}
