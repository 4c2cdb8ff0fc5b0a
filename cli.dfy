/**
 * health_cli/cli.py: the four commands of the command-line front end,
 * each run against the shared session `db`. A command that names an
 * unknown user stops with exit code 1 and changes nothing; the messages
 * echoed to the terminal are not modelled.
 */
module Cli {
  import opened Prelude
  import opened Schema
  import GoalControl

  /** How a command ends: normally with its value, or by `typer.Exit(code)`. */
  datatype Outcome<T> = Done(value: T) | Exit(code: int)

  /** The date a command uses: the one given, or the default day `today`. */
  function DateOr(given: Option<Day>, today: Day): (d: Day)
    ensures given.Some? ==> d == given.value
    ensures given.None? ==> d == today
  {
    if given.Some? then given.value else today
  }

  /** Appending a user keeps names unique exactly when its name is new. */
  lemma {:induction false} NamesUniqueAfterAdd(users: seq<User>, u: User)
    ensures NamesUnique(users + [u]) <==> NamesUnique(users) && forall v :: v in users ==> v.name != u.name
  {
    var r := users + [u];
    if NamesUnique(r) {
      forall v | v in users
        ensures v.name != u.name
      {
        var i :| 0 <= i < |users| && users[i] == v;
        assert r[i] == v && r[|users|] == u;
      }
      forall i, j | 0 <= i < j < |users|
        ensures users[i].name != users[j].name
      {
        assert r[i] == users[i] && r[j] == users[j];
      }
    }
    if NamesUnique(users) && forall v :: v in users ==> v.name != u.name {
      forall i, j | 0 <= i < j < |r|
        ensures r[i].name != r[j].name
      {
        if j < |users| {
          assert r[i] == users[i] && r[j] == users[j];
        } else {
          assert r[i] == users[i] && users[i] in users;
        }
      }
    }
  }

  /**
   * `user_create`: adds one user with that name and nothing else. When the
   * name was new, looking it up afterwards finds this user, and the names
   * stay unique; the store's reaction to a repeated name is not modelled.
   */
  method UserCreate(db: Db, name: string) returns (user: User)
    requires db.Valid()
    modifies db
    ensures db.Valid()
    ensures user.name == name && db.users == old(db.users) + [user]
    ensures db.entries == old(db.entries) && db.goals == old(db.goals)
    ensures (forall v :: v in old(db.users) ==> v.name != name) ==> UserNamed(db.users, name) == Some(user)
    ensures NamesUnique(db.users) <==> NamesUnique(old(db.users)) && forall v :: v in old(db.users) ==> v.name != name
  {
    user := db.AddUser(name);
    if forall v :: v in old(db.users) ==> v.name != name {
      LookupAfterAdd(old(db.users), user);
    }
    NamesUniqueAfterAdd(old(db.users), user);
  }

  /**
   * `entry_add`: exit code 1, with nothing changed, when no user has that
   * name; otherwise one entry for that user is appended, dated `entryDate`
   * or `today`, and that user's total for that day rises by `calories`.
   */
  method EntryAdd(db: Db, userName: string, food: string, calories: int, entryDate: Option<Day>, today: Day)
    returns (out: Outcome<FoodEntry>)
    requires db.Valid()
    modifies db
    ensures db.Valid()
    ensures out.Exit? <==> UserNamed(old(db.users), userName).None?
    ensures out.Exit? ==> out.code == 1 && db.entries == old(db.entries)
    ensures db.users == old(db.users) && db.goals == old(db.goals)
    ensures out.Done? ==>
      var u := UserNamed(db.users, userName).value;
      && out.value.food == food && out.value.calories == calories
      && out.value.date == DateOr(entryDate, today) && out.value.userId == Some(u.id)
      && db.entries == old(db.entries) + [out.value]
      && DayTotal(db.entries, u.id, out.value.date) == DayTotal(old(db.entries), u.id, out.value.date) + calories
  {
    var user := UserNamed(db.users, userName);
    if user.None? {
      return Exit(1);
    }
    var entry := db.AddEntry(food, calories, DateOr(entryDate, today), Some(user.value.id));
    DayTotalAfterAdd(old(db.entries), entry, user.value.id, entry.date);
    out := Done(entry);
  }

  /**
   * `goal_set` as the source writes it: a new goal row is appended on
   * every call, whether or not the user already has one.
   */
  method GoalSetAsWritten(db: Db, userName: string, daily: int, weekly: int) returns (out: Outcome<Goal>)
    requires db.Valid()
    modifies db
    ensures db.Valid()
    ensures out.Exit? <==> UserNamed(old(db.users), userName).None?
    ensures out.Exit? ==> out.code == 1 && db.goals == old(db.goals)
    ensures db.users == old(db.users) && db.entries == old(db.entries)
    ensures out.Done? ==>
      && out.value == Goal(old(db.nextId), daily, weekly, Some(UserNamed(db.users, userName).value.id))
      && db.goals == old(db.goals) + [out.value]
  {
    var user := UserNamed(db.users, userName);
    if user.None? {
      return Exit(1);
    }
    var goal := db.AddGoal(daily, weekly, Some(user.value.id));
    out := Done(goal);
  }

  /**
   * `goal_set` as intended: the user's goal is set through the goal
   * controller, so a user keeps a single goal holding the latest values.
   */
  method GoalSet(db: Db, userName: string, daily: int, weekly: int) returns (out: Outcome<Goal>)
    requires db.Valid()
    modifies db
    ensures db.Valid()
    ensures out.Exit? <==> UserNamed(old(db.users), userName).None?
    ensures out.Exit? ==> out.code == 1 && db.goals == old(db.goals)
    ensures db.users == old(db.users) && db.entries == old(db.entries)
    ensures out.Done? ==>
      var u := UserNamed(db.users, userName).value;
      && out.value.dailyCalories == daily && out.value.weeklyCalories == weekly
      && db.goals == GoalControl.Upserted(old(db.goals), u.id, daily, weekly, old(db.nextId))
      && GoalOf(db.goals, u.id) == Some(out.value)
    ensures OneGoalPerUser(old(db.goals)) ==> OneGoalPerUser(db.goals)
  {
    var user := UserNamed(db.users, userName);
    if user.None? {
      return Exit(1);
    }
    var controller := new GoalControl.GoalController(db);
    if OneGoalPerUser(db.goals) {
      GoalControl.SetGoalsKeepsOneGoal(db.goals, user.value.id, daily, weekly, db.nextId);
    }
    var goal := controller.SetGoals(user.value.id, daily, weekly);
    out := Done(goal);
  }

  /**
   * `report`: exit code 1 when no user has that name; otherwise the sum
   * of the calories of exactly that user's entries dated `reportDate` (or
   * `today`), which is 0 when there are none.
   */
  method Report(db: Db, userName: string, reportDate: Option<Day>, today: Day) returns (out: Outcome<int>)
    ensures out.Exit? <==> UserNamed(db.users, userName).None?
    ensures out.Exit? ==> out.code == 1
    ensures out.Done? ==>
      var u := UserNamed(db.users, userName).value;
      && out.value == TotalCalories(EntriesOn(db.entries, u.id, DateOr(reportDate, today)))
      && ((forall e :: e in db.entries ==> e.userId != Some(u.id) || e.date != DateOr(reportDate, today)) ==> out.value == 0)
  {
    var user := UserNamed(db.users, userName);
    if user.None? {
      return Exit(1);
    }
    var day := DateOr(reportDate, today);
    var entries := EntriesOn(db.entries, user.value.id, day);
    if entries != [] {
      assert entries[0] in entries;
    }
    out := Done(TotalCalories(entries));
  }

  /**
   * A fresh user who logs 300 and then 150 calories on the default day
   * gets a report of 450 for that day.
   */
  method LogTwoMealsThenReport(today: Day) returns (out: Outcome<int>)
    ensures out == Done(450)
  {
    var db := new Db();
    var alice := UserCreate(db, "alice");
    var eggs := EntryAdd(db, "alice", "eggs", 300, None, today);
    var toast := EntryAdd(db, "alice", "toast", 150, None, today);
    assert EntriesOn([], alice.id, today) == [];
    out := Report(db, "alice", None, today);
  }

  /** Setting a user's goals twice with the source's `goal_set` leaves two goal rows for that user. */
  method GoalSetTwiceAsWritten(d1: int, w1: int, d2: int, w2: int) returns (goals: seq<Goal>)
    ensures |goals| == 2 && !OneGoalPerUser(goals)
  {
    var db := new Db();
    var alice := UserCreate(db, "alice");
    var first := GoalSetAsWritten(db, "alice", d1, w1);
    var second := GoalSetAsWritten(db, "alice", d2, w2);
    goals := db.goals;
    assert goals[0].userId == goals[1].userId == Some(alice.id);
  }

  /** With the intended `goal_set`, the second call overwrites the first: one row, the latest values. */
  method GoalSetTwice(d1: int, w1: int, d2: int, w2: int) returns (goals: seq<Goal>, userId: nat)
    ensures |goals| == 1 && OneGoalPerUser(goals)
    ensures GoalOf(goals, userId).Some?
    ensures GoalOf(goals, userId).value.dailyCalories == d2 && GoalOf(goals, userId).value.weeklyCalories == w2
  {
    var db := new Db();
    var alice := UserCreate(db, "alice");
    userId := alice.id;
    var first := GoalSet(db, "alice", d1, w1);
    ghost var afterFirst, idAfterFirst := db.goals, db.nextId;
    var second := GoalSet(db, "alice", d2, w2);
    GoalControl.SetGoalsUpdatesInPlace(afterFirst, alice.id, d2, w2, idAfterFirst);
    goals := db.goals;
  }
}
