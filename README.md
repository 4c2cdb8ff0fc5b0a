# Health Simplified CLI — a Dafny model

This project models the calorie-tracking core of the Health Simplified
command-line application. Users log food entries with calories and a
date. They set a daily and a weekly calorie goal. They get a daily report
and a seven-day summary of their intake, and they plan a week's meals.
The tables live in a database session (SQLAlchemy in the original). Here
each table is a sequence of rows in insertion order, held by a session
object whose methods add, change or delete rows. A query with
`filter_by(...).all()` is a function returning the matching rows in
order, and `.first()` returns the first match or `None`.

Modules, one per source file:

- `Prelude` (prelude.dfy): `Option` for Python's `None`, and `Day`, a
  date as a day number.
- `Schema` (schema.dfy, models.py): the users, food entries and goals
  tables, the two uniqueness constraints as predicates, the queries, and
  the session `Db`.
- `GoalControl` (goal_controller.dfy, health_cli/controllers/goal_con.py):
  `set_goals` updates the user's goal or adds one. `check_progress`
  reports what is left of each target.
- `ReportControl` (report_controller.dfy, health_cli/controllers/report_con.py):
  the daily report, and the weekly summary with its per-day totals.
- `NutritionReport` (report_model.dfy, health_cli/models/report_model.py):
  the daily report data and the rows of the table that shows it.
- `FoodEntryControl` (foodentry_controller.dfy, health_cli/controllers/foodentry_con.py):
  adding an entry, and listing a date range ordered by date.
- `FoodEntries` and `MealPlans` (foodentry_model.dfy, mealplan_model.dfy):
  the class methods of health_cli/models/foodentry.py and
  health_cli/models/mealplan.py. These are create, lookups by user and by
  date, partial update and delete, on those files' own row shapes.
- `MealPlanControl` (mealplan_controller.dfy, health_cli/controllers/mealplan_con.py):
  creating a week's plan once per user and start date, and listing it
  day by day.
- `Cli` (cli.dfy, cli.py): the commands `user_create`, `entry_add`,
  `goal_set` and `report`. An unknown user name ends a command with exit
  code 1.

The current date and the session are parameters. Rendering to the
terminal is reduced to the rows or values that would be shown.

## Model

| member | source | states |
|---|---|---|
| Schema.UserNamed | cli.py:20 | A user is found exactly when some user has that name, and the user found has that name |
| Schema.UserNamedFindsUser | models.py:9 | While names are unique, looking up any user's name finds that very user |
| Schema.LookupAfterAdd | cli.py:12-20 | A user added under a new name is the one a later lookup of that name finds |
| Schema.GoalIndex | health_cli/controllers/goal_con.py:13 | The position found is the first goal row of the user; None means the user has no goal row |
| Schema.GoalOf | health_cli/controllers/goal_con.py:13 | A goal is found exactly when the user has a goal row, and the row found belongs to the user |
| Schema.GoalOfIsTheGoal | models.py:27 | While goals.user_id is unique, the goal found for a user is that user's only goal row |
| Schema.GoalIndexAt | health_cli/controllers/goal_con.py:13 | The first row that belongs to the user is the one the lookup returns |
| Schema.EntriesIn | health_cli/controllers/foodentry_con.py:32-36 | Exactly the user's entries dated within the inclusive range, never more rows than the table |
| Schema.EntriesOn | health_cli/controllers/report_con.py:15-18 | Exactly the user's entries dated on the given day |
| Schema.OnDay | health_cli/controllers/report_con.py:42 | Exactly the entries dated on the given day |
| Schema.TotalAppend | health_cli/controllers/report_con.py:20 | Adding an entry raises the calorie sum by that entry's calories |
| Schema.EntriesInAppend | health_cli/controllers/foodentry_con.py:23-36 | After one entry is added, a range query returns what it returned before, plus that entry at the end when it matches |
| Schema.DayTotalAfterAdd | health_cli/controllers/report_con.py:15-20 | Logging an entry raises its own user's total for its own day by its calories and changes no other user's or day's total |
| Schema.EmptyRange | health_cli/controllers/foodentry_con.py:32-36 | A range that ends before it starts selects no entries |
| Schema.SplitLastDay | health_cli/controllers/report_con.py:33-43 | The total over a range of days is the total without the last day plus the last day's total |
| Schema.OnDayOfRange | health_cli/controllers/report_con.py:42 | Taking one day out of a range query gives that day's own query |
| Schema.Db.constructor | models.py:6-35 | A new session starts with empty tables |
| Schema.Db.AddUser | tests/test_models.py:8-11 | Adding a user appends one row with that name and a non-null id no other user has |
| Schema.Db.AddEntry | health_cli/controllers/foodentry_con.py:17-24 | Adding an entry appends one row with the given fields and a fresh id; the other tables are unchanged |
| Schema.Db.AddGoal | health_cli/controllers/goal_con.py:19-24 | Adding a goal appends one row with the given values and a fresh id; the other tables are unchanged |
| GoalControl.SetGoalsUpdatesInPlace | health_cli/controllers/goal_con.py:13-17 | When the user has a goal, setting goals adds no row and overwrites that goal's two targets |
| GoalControl.SetGoalsInserts | health_cli/controllers/goal_con.py:18-24 | When the user has no goal, exactly one new goal row with the given targets is appended |
| GoalControl.SetGoalsSetsValues | health_cli/controllers/goal_con.py:13-27 | After setting goals, the user's goal holds the given daily and weekly targets |
| GoalControl.SetGoalsLeavesOthers | health_cli/controllers/goal_con.py:13-27 | Setting one user's goals leaves every other user's goal as it was |
| GoalControl.SetGoalsKeepsOneGoal | models.py:27 | Setting goals never gives a user a second goal row |
| GoalControl.SetGoalsTwice | health_cli/controllers/goal_con.py:11-27 | Setting goals twice leaves one goal row for the user, holding the second values |
| GoalControl.GoalController.constructor | health_cli/controllers/goal_con.py:8-9 | The controller works on the session it is given |
| GoalControl.GoalController.SetGoals | health_cli/controllers/goal_con.py:11-27 | The goals table becomes the upsert of the user's goal; the goal returned is the one found for the user, with the given targets; users and entries unchanged |
| GoalControl.GoalController.CheckProgress | health_cli/controllers/goal_con.py:29-44 | None exactly when the user has no goal; otherwise both targets, each with what remains of it, never below zero |
| GoalControl.ProgressAfterSetGoals | health_cli/controllers/goal_con.py:11-44 | Right after setting goals, progress reports those targets and the clamped remainders |
| ReportControl.SumDaysIsRangeTotal | health_cli/controllers/report_con.py:39-50 | Summing the per-day totals over the days of a range gives the total of the user's entries in that range |
| ReportControl.SumValues | health_cli/controllers/report_con.py:50 | The loop sums the daily totals of every day from the first to the last |
| ReportControl.ReportGenerator.constructor | health_cli/controllers/report_con.py:10-11 | The generator works on the session it is given |
| ReportControl.ReportGenerator.DailyReport | health_cli/controllers/report_con.py:13-28 | The report has the requested date and exactly the user's entries that day. Its total is their calorie sum, 0 when there are none. The goal is present exactly when the user has a goal row, and is that row's daily target |
| ReportControl.ReportGenerator.WeeklySummary | health_cli/controllers/report_con.py:30-51 | The week ends six days after it starts. Each of the seven days maps to the user's total for that day. The weekly total is their sum, which equals the total of the user's entries in the week |
| ReportControl.GroupedTotals | health_cli/controllers/report_con.py:39-44 | Grouping the week's entries by date gives each day's own total |
| ReportControl.TheGoalsTarget | health_cli/controllers/report_con.py:21-26 | While goals.user_id is unique, the goal found is the user's one goal row |
| NutritionReport.DailyReport | health_cli/models/report_model.py:10-19 | The data has the requested day and exactly the user's entries that day, with their calorie sum. The goal is the user's daily target when the user has a goal |
| NutritionReport.ShowReport | health_cli/models/report_model.py:22-31 | One row per entry in order, then TOTAL, then GOAL only when the goal is truthy. For data from the daily report, TOTAL equals the sum of the entry rows |
| FoodEntryControl.InsertByDate | health_cli/controllers/foodentry_con.py:36 | Inserting an entry into a date-ordered list keeps it ordered and adds exactly that entry |
| FoodEntryControl.SortByDate | health_cli/controllers/foodentry_con.py:36 | Ordering by date returns the same entries, as a multiset, in non-decreasing date order |
| FoodEntryControl.FoodEntryController.constructor | health_cli/controllers/foodentry_con.py:9-10 | The controller works on the session it is given |
| FoodEntryControl.FoodEntryController.AddEntry | health_cli/controllers/foodentry_con.py:12-25 | Appends exactly one entry for the user, with the given food and calories. It is dated on the given date, or today when none is given |
| FoodEntryControl.FoodEntryController.GetEntries | health_cli/controllers/foodentry_con.py:27-36 | Exactly the user's entries from the start date to the end date, or the start date alone when no end is given. They come in date order and, as a multiset, equal the range query |
| FoodEntries.GetByUser | health_cli/models/foodentry.py:29-31 | Exactly the rows of the user |
| FoodEntries.GetByDate | health_cli/models/foodentry.py:33-35 | Exactly the rows of the user dated on the given date |
| FoodEntries.IndexOfId | health_cli/models/foodentry.py:39 | The position of the first row with the id; None when no row has it |
| FoodEntries.Patch | health_cli/models/foodentry.py:40-46 | Every field passed as None keeps its value and every other field takes the new one; id and user never change |
| FoodEntries.GetByUserAfterCreate | health_cli/models/foodentry.py:22-31 | A created row appears at the end of its own user's lookup and in no other user's lookup |
| FoodEntries.RemoveId | health_cli/models/foodentry.py:52-57 | With unique ids, removing the row with an id leaves no row with that id and keeps ids unique |
| FoodEntries.Session.constructor | health_cli/models/foodentry.py:10-17 | A new session holds no rows |
| FoodEntries.Session.Create | health_cli/models/foodentry.py:22-27 | Appends exactly one row with the given fields and a fresh id, and returns it |
| FoodEntries.Session.Update | health_cli/models/foodentry.py:37-49 | None, with the table unchanged, when no row has the id; otherwise that row patched in place, with every other row unchanged |
| FoodEntries.Session.Delete | health_cli/models/foodentry.py:51-58 | True exactly when a row had the id. That row alone is removed, and afterwards no row has the id |
| MealPlans.GetByUser | health_cli/models/mealplan.py:30-32 | Exactly the plans of the user |
| MealPlans.GetByDate | health_cli/models/mealplan.py:34-36 | Exactly the plans of the user dated on the given date |
| MealPlans.IndexOfId | health_cli/models/mealplan.py:40 | The position of the first plan with the id; None when no plan has it |
| MealPlans.Patch | health_cli/models/mealplan.py:41-47 | Every field passed as None keeps its value and every other field takes the new one; id and user never change |
| MealPlans.GetByUserAfterCreate | health_cli/models/mealplan.py:23-32 | A created plan appears at the end of its own user's lookup and in no other user's lookup |
| MealPlans.RemoveId | health_cli/models/mealplan.py:53-58 | With unique ids, removing the plan with an id leaves no plan with that id and keeps ids unique |
| MealPlans.Session.constructor | health_cli/models/mealplan.py:11-18 | A new session holds no plans |
| MealPlans.Session.Create | health_cli/models/mealplan.py:23-28 | Appends exactly one plan with the given fields and a fresh id, and returns it |
| MealPlans.Session.Update | health_cli/models/mealplan.py:38-50 | None, with the table unchanged, when no plan has the id; otherwise that plan patched in place, with every other plan unchanged |
| MealPlans.Session.Delete | health_cli/models/mealplan.py:52-59 | True exactly when a plan had the id. That plan alone is removed, and afterwards no plan has the id |
| MealPlanControl.FindPlan | health_cli/controllers/mealplan_con.py:15-18 | A plan is found exactly when the user has one starting that day, and the plan found is such a plan |
| MealPlanControl.FindPlanAfterAdd | health_cli/controllers/mealplan_con.py:13-31 | A plan added for a week that had none is the one later found for that week |
| MealPlanControl.PlanDb.constructor | health_cli/controllers/mealplan_con.py:10-11 | A new session holds no plans |
| MealPlanControl.PlanDb.AddPlan | health_cli/controllers/mealplan_con.py:29-30 | Appends exactly one plan with the given fields and a fresh id |
| MealPlanControl.MealPlanController.constructor | health_cli/controllers/mealplan_con.py:10-11 | The controller works on the session it is given |
| MealPlanControl.MealPlanController.CreatePlanAsWritten | health_cli/controllers/mealplan_con.py:13-31 | As written: an existing plan for the week is returned unchanged. Otherwise one plan is added, ending days - 1 days after its start, with no meals mapping |
| MealPlanControl.MealPlanController.CreatePlan | health_cli/controllers/mealplan_con.py:13-31 | An existing plan for the week is returned and nothing is added. Otherwise one plan is added, ending days - 1 days after its start, with an empty mapping. The plan returned is the one found for that week, and no week gets two plans |
| MealPlanControl.MealPlanController.DisplayPlan | health_cli/controllers/mealplan_con.py:33-61 | No plan: nothing shown. A plan with no meals mapping and a non-empty range fails at once. Otherwise one row per day from the week start to the end date, in order, each slot showing its text or "-" |
| MealPlanControl.CreateThenDisplayAsWritten | health_cli/controllers/mealplan_con.py:24-52 | A plan just created by the source's create_plan cannot be displayed |
| MealPlanControl.CreateThenDisplay | health_cli/controllers/mealplan_con.py:13-61 | A plan created with the default seven days displays seven consecutive days with every slot "-" |
| Cli.NamesUniqueAfterAdd | models.py:9 | Appending a user keeps names unique exactly when the new name is not taken |
| Cli.UserCreate | cli.py:9-15 | Appends one user with the name. Names stay unique exactly when the name was new, and then a lookup of the name finds this user |
| Cli.EntryAdd | cli.py:17-27 | Exit 1, with nothing changed, exactly when the user is unknown. Otherwise one entry for that user is appended, dated as given or today, and that user's total for that day rises by its calories |
| Cli.GoalSetAsWritten | cli.py:29-39 | As written: exit 1 for an unknown user; otherwise a new goal row is appended on every call |
| Cli.GoalSet | cli.py:29-39 | Exit 1 for an unknown user. Otherwise the user's goal is updated or created and holds the given targets, and a user never gets a second goal |
| Cli.Report | cli.py:41-52 | Exit 1 exactly when the user is unknown. Otherwise the sum of the calories of exactly that user's entries on the day, 0 when there are none |
| Cli.LogTwoMealsThenReport | cli.py:9-52 | A new user who logs 300 and then 150 calories on the default day is reported 450 for that day |
| Cli.GoalSetTwiceAsWritten | cli.py:36-38 | Two goal_set calls for one user leave two goal rows for that user |
| Cli.GoalSetTwice | cli.py:29-39 | With the corrected goal_set, two calls leave one goal row holding the second values |

## Left out

- Terminal output is not modelled: `typer.echo`, the rich console and its tables, colours and titles. `ShowReport` and `DisplayPlan` return the rows they would print.
- `DisplayPlan` shows the date in its first column, not the weekday name that `strftime("%A")` prints. `ShowReport` keeps calories as numbers, not as the text `str()` makes.
- Dates are whole day numbers. The date strings that cli.py takes are not parsed, and date arithmetic is addition.
- The current date is a parameter. In cli.py the default date is evaluated once, when the module is loaded, so `today` stands for the day the program started.
- The session lifecycle is not modelled: commit, rollback and close. Neither are relationships and back-references, nor `__repr__`.
- The store's reaction to a broken constraint (unique name, unique goal user, NOT NULL, foreign key) is not modelled. The constraints are predicates, and the operations are proved to keep or break them.
- Schema.Db: one id counter serves all three tables. The store numbers each table on its own, and the model only relies on ids being fresh and non-null.
- Goal targets are plain integers, although their columns may hold NULL. Every writer in the core sets both targets.
- The source has two incompatible row shapes for food entries and meal plans. models.py has `food`, an optional user and a meals mapping. health_cli/models/foodentry.py and health_cli/models/mealplan.py have a `food_name` or `meal_name`, a required user and calories. mealplan_con.py uses start and end dates, which no meal_plans table declares. Each file is modelled on its own shape, and import failures from these mismatches are not modelled.
- The models do not check that the user exists before creating a row, and neither does the source.
- ReportControl.WeeklySummary: the daily totals are a map, so the insertion order of the source's dictionary is not kept.
- FoodEntryControl.GetEntries: entries that share a date come back in an unspecified order, as with SQL `ORDER BY`. The contract states date order and the multiset of entries.
- database.py, config.py, __init__.py, health_cli/models.py, health_cli/database.py, health_cli/models/user.py and health_cli/models/goal.py are not part of this model.

## Findings

| source | as written | input that shows it | evidently intended | confidence | as-written member | corrected member |
|---|---|---|---|---|---|---|
| cli.py:36-38 | `goal_set` builds and adds a new goal row on every call. It never looks for the user's existing goal | `goal_set alice 2000 14000` run twice for one user | Update the existing goal, as `set_goals` in goal_con.py does and as the unique `goals.user_id` column demands, so a user keeps one goal holding the latest values | not executed | Cli.GoalSetAsWritten | Cli.GoalSet |
| health_cli/controllers/mealplan_con.py:24-28 | `create_plan` gives the new plan no meals mapping, so `display_plan` calls `get` on None on the plan's first day | `create_plan(1, d)` then `display_plan(1, d)` | The template starts with an empty mapping and displays each day with "-" in every slot | not executed | MealPlanControl.MealPlanController.CreatePlanAsWritten | MealPlanControl.MealPlanController.CreatePlan |
