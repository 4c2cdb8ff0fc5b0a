/**
 * The tables declared in models.py, the constraints they carry and the
 * queries that the controllers and the command line run against them.
 *
 * The relational store is abstracted as one in-memory table per entity:
 * a sequence of rows in insertion order, with primary keys drawn from a
 * counter. `filter_by(f=v)` is field equality, `.first()` is the first
 * matching row in table order, and `commit` changes nothing further.
 */
module Schema {
  import opened Prelude

  /** A meal-slot name ("breakfast", "lunch", "dinner") to a description. */
  type Slots = map<string, string>
  /** The JSON `meals` column: per date, the filled meal slots. */
  type Meals = map<Day, Slots>

  /** `users`: the name is required (never None) and unique. */
  datatype User = User(id: nat, name: string)

  /** `food_entries`: food, calories and date are required; user_id may be NULL. */
  datatype FoodEntry = FoodEntry(id: nat, food: string, calories: int, date: Day, userId: Option<nat>)

  /** `goals`: user_id is unique, so a user has at most one goal. */
  datatype Goal = Goal(id: nat, dailyCalories: int, weeklyCalories: int, userId: Option<nat>)

  /** `meal_plans`: the date is required; the meals mapping may be NULL. */
  datatype MealPlan = MealPlan(id: nat, userId: Option<nat>, date: Day, meals: Option<Meals>)

  /** The UNIQUE constraint on users.name. */
  predicate NamesUnique(users: seq<User>) {
    forall i, j :: 0 <= i < j < |users| ==> users[i].name != users[j].name
  }

  /** The UNIQUE constraint on goals.user_id (as in SQL, NULLs may repeat). */
  predicate OneGoalPerUser(goals: seq<Goal>) {
    forall i, j :: 0 <= i < j < |goals| && goals[i].userId.Some? ==> goals[i].userId != goals[j].userId
  }

  /** `query(User).filter_by(name=name).first()` */
  function UserNamed(users: seq<User>, name: string): (r: Option<User>)
    ensures r.Some? <==> exists u :: u in users && u.name == name
    ensures r.Some? ==> r.value in users && r.value.name == name
  {
    if users == [] then None
    else if users[0].name == name then Some(users[0])
    else UserNamed(users[1..], name)
  }

  /** Under the name constraint, looking a user up by name finds exactly that user. */
  lemma {:induction false} UserNamedFindsUser(users: seq<User>, u: User)
    requires NamesUnique(users) && u in users
    ensures UserNamed(users, u.name) == Some(u)
  {
    if users[0] != u {
      var k :| 0 <= k < |users| && users[k] == u;
      assert users[0].name != users[k].name;
      assert users[1..][k - 1] == u;
      UserNamedFindsUser(users[1..], u);
    }
  }

  /** A user added under a fresh name is what a later lookup by that name returns. */
  lemma {:induction false} LookupAfterAdd(users: seq<User>, u: User)
    requires forall v :: v in users ==> v.name != u.name
    ensures UserNamed(users + [u], u.name) == Some(u)
  {
    if users != [] {
      assert (users + [u])[1..] == users[1..] + [u];
      LookupAfterAdd(users[1..], u);
    }
  }

  /** Position of the first goal of `userId`: `query(Goal).filter_by(user_id=...).first()`. */
  function GoalIndex(goals: seq<Goal>, userId: nat): (r: Option<nat>)
    ensures r.Some? ==> r.value < |goals| && goals[r.value].userId == Some(userId)
    ensures r.Some? ==> forall k :: 0 <= k < r.value ==> goals[k].userId != Some(userId)
    ensures r.None? ==> forall k :: 0 <= k < |goals| ==> goals[k].userId != Some(userId)
  {
    if goals == [] then None
    else if goals[0].userId == Some(userId) then Some(0)
    else match GoalIndex(goals[1..], userId)
      case None => None
      case Some(i) => Some(i + 1)
  }

  /** The goal of `userId`, if any (the single-valued `User.goals`). */
  function GoalOf(goals: seq<Goal>, userId: nat): (r: Option<Goal>)
    ensures r.Some? <==> exists g :: g in goals && g.userId == Some(userId)
    ensures r.Some? ==> r.value in goals && r.value.userId == Some(userId)
  {
    match GoalIndex(goals, userId)
    case None => None
    case Some(i) => Some(goals[i])
  }

  /** Under the goal constraint the goal found is the user's one and only goal. */
  lemma GoalOfIsTheGoal(goals: seq<Goal>, i: nat)
    requires OneGoalPerUser(goals) && i < |goals| && goals[i].userId.Some?
    ensures GoalIndex(goals, goals[i].userId.value) == Some(i)
    ensures GoalOf(goals, goals[i].userId.value) == Some(goals[i])
  {
  }

  /** GoalIndex is determined by where the first goal of the user sits. */
  lemma GoalIndexAt(goals: seq<Goal>, userId: nat, i: nat)
    requires i < |goals| && goals[i].userId == Some(userId)
    requires forall k :: 0 <= k < i ==> goals[k].userId != Some(userId)
    ensures GoalIndex(goals, userId) == Some(i)
  {
  }

  /**
   * `query(FoodEntry).filter(user_id == userId, date >= lo, date <= hi)`,
   * in table order.
   */
  function EntriesIn(entries: seq<FoodEntry>, userId: nat, lo: Day, hi: Day): (r: seq<FoodEntry>)
    ensures forall e :: e in r <==> e in entries && e.userId == Some(userId) && lo <= e.date <= hi
    ensures |r| <= |entries|
  {
    if entries == [] then []
    else
      var init, last := entries[..|entries| - 1], entries[|entries| - 1];
      assert entries == init + [last];
      var rest := EntriesIn(init, userId, lo, hi);
      if last.userId == Some(userId) && lo <= last.date <= hi then rest + [last] else rest
  }

  /** `query(FoodEntry).filter_by(user_id=userId, date=day)` */
  function EntriesOn(entries: seq<FoodEntry>, userId: nat, day: Day): (r: seq<FoodEntry>)
    ensures forall e :: e in r <==> e in entries && e.userId == Some(userId) && e.date == day
  {
    EntriesIn(entries, userId, day, day)
  }

  /** `[e for e in entries if e.date == day]` */
  function OnDay(entries: seq<FoodEntry>, day: Day): (r: seq<FoodEntry>)
    ensures forall e :: e in r <==> e in entries && e.date == day
  {
    if entries == [] then []
    else
      var init, last := entries[..|entries| - 1], entries[|entries| - 1];
      assert entries == init + [last];
      var rest := OnDay(init, day);
      if last.date == day then rest + [last] else rest
  }

  /** `sum(e.calories for e in entries)` */
  function TotalCalories(entries: seq<FoodEntry>): int {
    if entries == [] then 0
    else TotalCalories(entries[..|entries| - 1]) + entries[|entries| - 1].calories
  }

  /** The calories a user logged on one day. */
  function DayTotal(entries: seq<FoodEntry>, userId: nat, day: Day): int {
    TotalCalories(EntriesOn(entries, userId, day))
  }

  lemma TotalAppend(entries: seq<FoodEntry>, e: FoodEntry)
    ensures TotalCalories(entries + [e]) == TotalCalories(entries) + e.calories
  {
    assert (entries + [e])[..|entries|] == entries;
  }

  /** Adding one entry changes a range query by that entry alone, at the end. */
  lemma EntriesInAppend(entries: seq<FoodEntry>, e: FoodEntry, userId: nat, lo: Day, hi: Day)
    ensures EntriesIn(entries + [e], userId, lo, hi)
         == EntriesIn(entries, userId, lo, hi) + (if e.userId == Some(userId) && lo <= e.date <= hi then [e] else [])
  {
    assert (entries + [e])[..|entries|] == entries;
  }

  /** Logging an entry raises the total of its own user and day by its calories, and no other. */
  lemma DayTotalAfterAdd(entries: seq<FoodEntry>, e: FoodEntry, userId: nat, day: Day)
    ensures DayTotal(entries + [e], userId, day)
         == DayTotal(entries, userId, day) + (if e.userId == Some(userId) && e.date == day then e.calories else 0)
  {
    EntriesInAppend(entries, e, userId, day, day);
    TotalAppend(EntriesOn(entries, userId, day), e);
  }

  /** An empty date range selects nothing. */
  lemma EmptyRange(entries: seq<FoodEntry>, userId: nat, lo: Day, hi: Day)
    requires hi < lo
    ensures EntriesIn(entries, userId, lo, hi) == []
  {
  }

  /** The total over `[lo, hi]` is the total over `[lo, hi - 1]` plus day `hi`. */
  lemma {:induction false} SplitLastDay(entries: seq<FoodEntry>, userId: nat, lo: Day, hi: Day)
    requires lo <= hi
    ensures TotalCalories(EntriesIn(entries, userId, lo, hi))
         == TotalCalories(EntriesIn(entries, userId, lo, hi - 1)) + DayTotal(entries, userId, hi)
  {
    if entries != [] {
      var init, last := entries[..|entries| - 1], entries[|entries| - 1];
      assert entries == init + [last];
      SplitLastDay(init, userId, lo, hi);
      EntriesInAppend(init, last, userId, lo, hi);
      EntriesInAppend(init, last, userId, lo, hi - 1);
      EntriesInAppend(init, last, userId, hi, hi);
      if last.userId == Some(userId) && lo <= last.date <= hi {
        TotalAppend(EntriesIn(init, userId, lo, hi), last);
        if last.date == hi {
          TotalAppend(EntriesIn(init, userId, hi, hi), last);
        } else {
          TotalAppend(EntriesIn(init, userId, lo, hi - 1), last);
        }
      }
    }
  }

  /** Regrouping a range query by one day inside the range is that day's query. */
  lemma {:induction false} OnDayOfRange(entries: seq<FoodEntry>, userId: nat, lo: Day, hi: Day, day: Day)
    requires lo <= day <= hi
    ensures OnDay(EntriesIn(entries, userId, lo, hi), day) == EntriesOn(entries, userId, day)
  {
    if entries != [] {
      var init, last := entries[..|entries| - 1], entries[|entries| - 1];
      assert entries == init + [last];
      OnDayOfRange(init, userId, lo, hi, day);
      EntriesInAppend(init, last, userId, lo, hi);
      EntriesInAppend(init, last, userId, day, day);
      var rest := EntriesIn(init, userId, lo, hi);
      assert (rest + [last])[..|rest|] == rest;
    }
  }

  /**
   * The session over the tables of models.py. Every row's id was drawn
   * from `nextId`, so ids are positive and distinct within each table.
   */
  class Db {
    var users: seq<User>
    var entries: seq<FoodEntry>
    var goals: seq<Goal>
    var nextId: nat

    ghost predicate Valid()
      reads this
    {
      && 1 <= nextId
      && (forall i :: 0 <= i < |users| ==> 1 <= users[i].id < nextId)
      && (forall i :: 0 <= i < |entries| ==> 1 <= entries[i].id < nextId)
      && (forall i :: 0 <= i < |goals| ==> 1 <= goals[i].id < nextId)
      && (forall i, j :: 0 <= i < j < |users| ==> users[i].id != users[j].id)
      && (forall i, j :: 0 <= i < j < |entries| ==> entries[i].id != entries[j].id)
      && (forall i, j :: 0 <= i < j < |goals| ==> goals[i].id != goals[j].id)
    }

    constructor ()
      ensures Valid()
      ensures users == [] && entries == [] && goals == []
    {
      users, entries, goals := [], [], [];
      nextId := 1;
    }

    /** `db.add(User(name=name)); db.commit()`: the new row gets a fresh, non-null id. */
    method AddUser(name: string) returns (u: User)
      requires Valid()
      modifies this
      ensures Valid()
      ensures u.name == name && 1 <= u.id
      ensures forall v :: v in old(users) ==> v.id != u.id
      ensures users == old(users) + [u]
      ensures entries == old(entries) && goals == old(goals)
    {
      u := User(nextId, name);
      users := users + [u];
      nextId := nextId + 1;
    }

    /** `db.add(FoodEntry(...)); db.commit()` */
    method AddEntry(food: string, calories: int, date: Day, userId: Option<nat>) returns (e: FoodEntry)
      requires Valid()
      modifies this
      ensures Valid()
      ensures e.food == food && e.calories == calories && e.date == date && e.userId == userId && 1 <= e.id
      ensures forall x :: x in old(entries) ==> x.id != e.id
      ensures entries == old(entries) + [e]
      ensures users == old(users) && goals == old(goals)
    {
      e := FoodEntry(nextId, food, calories, date, userId);
      entries := entries + [e];
      nextId := nextId + 1;
    }

    /** `db.add(Goal(...)); db.commit()` */
    method AddGoal(daily: int, weekly: int, userId: Option<nat>) returns (g: Goal)
      requires Valid()
      modifies this
      ensures Valid()
      ensures g == Goal(old(nextId), daily, weekly, userId)
      ensures forall x :: x in old(goals) ==> x.id != g.id
      ensures goals == old(goals) + [g]
      ensures users == old(users) && entries == old(entries)
    {
      g := Goal(nextId, daily, weekly, userId);
      goals := goals + [g];
      nextId := nextId + 1;
    }
  }
}
