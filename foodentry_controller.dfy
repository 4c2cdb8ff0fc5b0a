/**
 * health_cli/controllers/foodentry_con.py: logging a food entry and
 * listing a user's entries over a range of dates, ordered by date.
 */
module FoodEntryControl {
  import opened Prelude
  import opened Schema

  predicate SortedByDate(s: seq<FoodEntry>) {
    forall i, j :: 0 <= i < j < |s| ==> s[i].date <= s[j].date
  }

  lemma ConsSorted(h: FoodEntry, t: seq<FoodEntry>)
    requires SortedByDate(t)
    requires forall x :: x in t ==> h.date <= x.date
    ensures SortedByDate([h] + t)
  {
    forall i, j | 0 <= i < j < |[h] + t|
      ensures ([h] + t)[i].date <= ([h] + t)[j].date
    {
      assert ([h] + t)[j] == t[j - 1];
      assert t[j - 1] in t;
      if i > 0 {
        assert ([h] + t)[i] == t[i - 1];
      }
    }
  }

  /** Inserting behind the head of a sorted sequence keeps it sorted. */
  lemma InsertBehindHead(e: FoodEntry, s: seq<FoodEntry>, tail: seq<FoodEntry>)
    requires s != [] && SortedByDate(s) && s[0].date < e.date
    requires SortedByDate(tail) && multiset(tail) == multiset(s[1..]) + multiset{e}
    requires forall x :: x in tail ==> x == e || x in s[1..]
    ensures SortedByDate([s[0]] + tail)
    ensures multiset([s[0]] + tail) == multiset(s) + multiset{e}
    ensures forall x :: x in [s[0]] + tail ==> x == e || x in s
  {
    assert s == [s[0]] + s[1..];
    forall x | x in s[1..] ensures s[0].date <= x.date {
      var k :| 0 <= k < |s[1..]| && s[1..][k] == x;
      assert s[k + 1] == x;
    }
    ConsSorted(s[0], tail);
  }

  /** Places `e` into a date-ordered sequence. */
  function InsertByDate(e: FoodEntry, s: seq<FoodEntry>): (r: seq<FoodEntry>)
    requires SortedByDate(s)
    ensures SortedByDate(r)
    ensures multiset(r) == multiset(s) + multiset{e}
    ensures forall x :: x in r ==> x == e || x in s
  {
    if s == [] then [e]
    else if e.date <= s[0].date then [e] + s
    else
      var tail := InsertByDate(e, s[1..]);
      InsertBehindHead(e, s, tail);
      [s[0]] + tail
  }

  /** `ORDER BY date`: the same entries, in non-decreasing date order. */
  function SortByDate(s: seq<FoodEntry>): (r: seq<FoodEntry>)
    ensures SortedByDate(r)
    ensures multiset(r) == multiset(s)
  {
    if s == [] then []
    else
      assert s == [s[0]] + s[1..];
      InsertByDate(s[0], SortByDate(s[1..]))
  }

  /** `FoodEntryController`: food entries in the session `db`. */
  class FoodEntryController {
    const db: Db

    constructor (db: Db)
      ensures this.db == db
    {
      this.db := db;
    }

    /**
     * `add_entry`: adds exactly one entry for the user with the food and
     * calories given, dated `entryDate`, or `today` when no date is given.
     */
    method AddEntry(userId: nat, food: string, calories: int, entryDate: Option<Day>, today: Day) returns (entry: FoodEntry)
      requires db.Valid()
      modifies db
      ensures db.Valid()
      ensures entry.userId == Some(userId) && entry.food == food && entry.calories == calories
      ensures entry.date == (if entryDate.Some? then entryDate.value else today)
      ensures forall x :: x in old(db.entries) ==> x.id != entry.id
      ensures db.entries == old(db.entries) + [entry]
      ensures db.users == old(db.users) && db.goals == old(db.goals)
    {
      var date := if entryDate.None? then today else entryDate.value;
      entry := db.AddEntry(food, calories, date, Some(userId));
    }

    /**
     * `get_entries`: exactly the user's entries dated from `startDate` to
     * `endDate` inclusive (to `startDate` alone when no end is given), in
     * date order; nothing in the table changes.
     */
    function GetEntries(userId: nat, startDate: Day, endDate: Option<Day>): (r: seq<FoodEntry>)
      reads db
      ensures var last := if endDate.Some? then endDate.value else startDate;
        && SortedByDate(r)
        && (forall e :: e in r <==> e in db.entries && e.userId == Some(userId) && startDate <= e.date <= last)
        && multiset(r) == multiset(EntriesIn(db.entries, userId, startDate, last))
    {
      var last := if endDate.None? then startDate else endDate.value;
      var r := SortByDate(EntriesIn(db.entries, userId, startDate, last));
      assert forall e :: e in r <==> e in multiset(r);
      r
    }
  }
}
