/**
 * health_cli/models/foodentry.py: the `food_entries` table in that file's
 * own shape (user_id required, the food under `food_name`) and its class
 * methods: create, the two lookups, partial update and delete.
 */
module FoodEntries {
  import opened Prelude

  datatype FoodEntry = FoodEntry(id: nat, userId: nat, foodName: string, calories: int, date: Day)

  predicate IdsUnique(rows: seq<FoodEntry>) {
    forall i, j :: 0 <= i < j < |rows| ==> rows[i].id != rows[j].id
  }

  /** `get_by_user`: `filter_by(user_id=userId).all()` */
  function GetByUser(rows: seq<FoodEntry>, userId: nat): (r: seq<FoodEntry>)
    ensures forall e :: e in r <==> e in rows && e.userId == userId
  {
    if rows == [] then []
    else
      var init, last := rows[..|rows| - 1], rows[|rows| - 1];
      assert rows == init + [last];
      var rest := GetByUser(init, userId);
      if last.userId == userId then rest + [last] else rest
  }

  /** `get_by_date`: `filter_by(user_id=userId, date=date).all()` */
  function GetByDate(rows: seq<FoodEntry>, userId: nat, date: Day): (r: seq<FoodEntry>)
    ensures forall e :: e in r <==> e in rows && e.userId == userId && e.date == date
  {
    if rows == [] then []
    else
      var init, last := rows[..|rows| - 1], rows[|rows| - 1];
      assert rows == init + [last];
      var rest := GetByDate(init, userId, date);
      if last.userId == userId && last.date == date then rest + [last] else rest
  }

  /** Position of `filter_by(id=id).first()`, if there is such a row. */
  function IndexOfId(rows: seq<FoodEntry>, id: nat): (r: Option<nat>)
    ensures r.Some? ==> r.value < |rows| && rows[r.value].id == id
    ensures r.Some? ==> forall k :: 0 <= k < r.value ==> rows[k].id != id
    ensures r.None? ==> forall k :: 0 <= k < |rows| ==> rows[k].id != id
  {
    if rows == [] then None
    else if rows[0].id == id then Some(0)
    else match IndexOfId(rows[1..], id)
      case None => None
      case Some(i) => Some(i + 1)
  }

  /**
   * The row after `update(..., food_name, calories, date)`: every field
   * passed as None keeps its value, every other one is overwritten; the id
   * and the user never change.
   */
  function Patch(e: FoodEntry, foodName: Option<string>, calories: Option<int>, date: Option<Day>): (r: FoodEntry)
    ensures r.id == e.id && r.userId == e.userId
    ensures foodName.None? ==> r.foodName == e.foodName
    ensures foodName.Some? ==> r.foodName == foodName.value
    ensures calories.None? ==> r.calories == e.calories
    ensures calories.Some? ==> r.calories == calories.value
    ensures date.None? ==> r.date == e.date
    ensures date.Some? ==> r.date == date.value
  {
    var e1 := if foodName.Some? then e.(foodName := foodName.value) else e;
    var e2 := if calories.Some? then e1.(calories := calories.value) else e1;
    if date.Some? then e2.(date := date.value) else e2
  }

  /** A created row shows up at the end of its user's lookup and of no other user's. */
  lemma GetByUserAfterCreate(rows: seq<FoodEntry>, e: FoodEntry, userId: nat)
    ensures GetByUser(rows + [e], userId) == GetByUser(rows, userId) + (if e.userId == userId then [e] else [])
  {
    assert (rows + [e])[..|rows|] == rows;
  }

  /** Removing the row that has `id` leaves no row with that id, when ids are unique. */
  lemma RemoveId(rows: seq<FoodEntry>, i: nat)
    requires IdsUnique(rows) && i < |rows|
    ensures var rest := rows[..i] + rows[i + 1..];
      && IdsUnique(rest)
      && IndexOfId(rest, rows[i].id).None?
      && forall e :: e in rest ==> e in rows
  {
    var rest := rows[..i] + rows[i + 1..];
    assert forall k :: 0 <= k < |rest| ==> rest[k] == if k < i then rows[k] else rows[k + 1];
  }

  /** The session over this table; ids are drawn from `nextId`. */
  class Session {
    var rows: seq<FoodEntry>
    var nextId: nat

    ghost predicate Valid()
      reads this
    {
      && 1 <= nextId
      && (forall i :: 0 <= i < |rows| ==> 1 <= rows[i].id < nextId)
      && IdsUnique(rows)
    }

    constructor ()
      ensures Valid() && rows == []
    {
      rows, nextId := [], 1;
    }

    /** `create`: adds exactly one row with the given fields and a fresh id, and returns it. */
    method Create(userId: nat, foodName: string, calories: int, date: Day) returns (entry: FoodEntry)
      requires Valid()
      modifies this
      ensures Valid()
      ensures entry.userId == userId && entry.foodName == foodName && entry.calories == calories && entry.date == date
      ensures forall e :: e in old(rows) ==> e.id != entry.id
      ensures rows == old(rows) + [entry]
    {
      entry := FoodEntry(nextId, userId, foodName, calories, date);
      rows := rows + [entry];
      nextId := nextId + 1;
    }

    /**
     * `update`: None, with the table unchanged, when no row has the id;
     * otherwise that row, patched in place, and every other row as it was.
     */
    method Update(id: nat, foodName: Option<string>, calories: Option<int>, date: Option<Day>) returns (r: Option<FoodEntry>)
      requires Valid()
      modifies this
      ensures Valid() && nextId == old(nextId)
      ensures IndexOfId(old(rows), id).None? ==> r.None? && rows == old(rows)
      ensures IndexOfId(old(rows), id).Some? ==>
        var i := IndexOfId(old(rows), id).value;
        && r == Some(Patch(old(rows)[i], foodName, calories, date))
        && rows == old(rows)[i := r.value]
    {
      match IndexOfId(rows, id)
      case None =>
        r := None;
      case Some(i) =>
        var entry := Patch(rows[i], foodName, calories, date);
        rows := rows[i := entry];
        r := Some(entry);
    }

    /**
     * `delete`: true exactly when a row had the id; that row alone is
     * removed, and afterwards no row has the id.
     */
    method Delete(id: nat) returns (found: bool)
      requires Valid()
      modifies this
      ensures Valid() && nextId == old(nextId)
      ensures found <==> IndexOfId(old(rows), id).Some?
      ensures !found ==> rows == old(rows)
      ensures found ==>
        var i := IndexOfId(old(rows), id).value;
        rows == old(rows)[..i] + old(rows)[i + 1..]
      ensures IndexOfId(rows, id).None?
    {
      match IndexOfId(rows, id)
      case None =>
        found := false;
      case Some(i) =>
        RemoveId(rows, i);
        rows := rows[..i] + rows[i + 1..];
        found := true;
    }
  }
}
