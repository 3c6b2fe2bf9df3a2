/**
 * A user's daily activity record and the ascending, stable sort by date that
 * both chart components apply to a copy of the records before they chart them.
 */
module Activities {

  /**
   * One day of a user's activity (`DailyActivity`). The date is a day number
   * (see module Calendar); the measured quantities are whole numbers.
   */
  datatype Activity = Activity(
    id: int,
    date: int,
    steps: int,
    caloriesBurned: int,
    standingHours: int,
    distanceMeters: int)

  /** Records are in non-decreasing date order. */
  ghost predicate SortedByDate(s: seq<Activity>)
  {
    forall i, j :: 0 <= i < j < |s| ==> s[i].date <= s[j].date
  }

  /** The records of `s` dated `day`, in their order in `s`. */
  function OnDay(s: seq<Activity>, day: int): (r: seq<Activity>)
    ensures |r| <= |s|
    ensures forall x :: x in r <==> x in s && x.date == day
  {
    if s == [] then []
    else (if s[0].date == day then [s[0]] else []) + OnDay(s[1..], day)
  }

  /**
   * Inserts `x` into `s` in front of the first record not dated before it,
   * so that `x` stays ahead of the records that share its date.
   */
  function Insert(x: Activity, s: seq<Activity>): (r: seq<Activity>)
    ensures multiset(r) == multiset(s) + multiset{x}
    ensures forall i :: 0 <= i < |r| ==> r[i] == x || r[i] in s
  {
    if s == [] || x.date <= s[0].date then [x] + s
    else
      var t := Insert(x, s[1..]);
      assert s == [s[0]] + s[1..];
      [s[0]] + t
  }

  /** Inserting a record into date-ordered records keeps them in date order. */
  lemma {:induction false} InsertKeepsSorted(x: Activity, s: seq<Activity>)
    requires SortedByDate(s)
    ensures SortedByDate(Insert(x, s))
  {
    if s != [] && x.date > s[0].date {
      var t := Insert(x, s[1..]);
      InsertKeepsSorted(x, s[1..]);
      forall j | 0 <= j < |t|
        ensures s[0].date <= t[j].date
      {
        if t[j] != x {
          var k :| 1 <= k < |s| && s[k] == t[j];
        }
      }
    }
  }

  /**
   * The records ordered by ascending date, as `sort` with the comparator
   * `date(a) - date(b)` orders a copy of them. The sort is stable: records
   * with the same date keep their relative order (see SortIsStable).
   */
  function SortByDate(s: seq<Activity>): (r: seq<Activity>)
    ensures SortedByDate(r)
    ensures multiset(r) == multiset(s)
    ensures |r| == |s|
  {
    if s == [] then []
    else
      assert s == [s[0]] + s[1..];
      InsertKeepsSorted(s[0], SortByDate(s[1..]));
      Insert(s[0], SortByDate(s[1..]))
  }

  /** Filtering a record followed by more records. */
  lemma OnDayCons(y: Activity, s: seq<Activity>, day: int)
    ensures OnDay([y] + s, day) == (if y.date == day then [y] else []) + OnDay(s, day)
  {
    assert ([y] + s)[1..] == s;
  }

  /** Inserting a record adds it to the records of its own date, at their front. */
  lemma {:induction false} InsertOnDay(x: Activity, s: seq<Activity>, day: int)
    ensures OnDay(Insert(x, s), day) == (if x.date == day then [x] else []) + OnDay(s, day)
  {
    if s == [] || x.date <= s[0].date {
      OnDayCons(x, s, day);
    } else {
      var t := Insert(x, s[1..]);
      var head, mine := if s[0].date == day then [s[0]] else [], if x.date == day then [x] else [];
      assert Insert(x, s) == [s[0]] + t;
      assert s == [s[0]] + s[1..];
      calc {
        OnDay(Insert(x, s), day);
        { OnDayCons(s[0], t, day); }
        head + OnDay(t, day);
        { InsertOnDay(x, s[1..], day); }
        head + (mine + OnDay(s[1..], day));
        { assert head == [] || mine == []; }
        mine + (head + OnDay(s[1..], day));
        { OnDayCons(s[0], s[1..], day); }
        mine + OnDay(s, day);
      }
    }
  }

  /** Records already in date order are left as they are. */
  lemma {:induction false} SortedUnchanged(s: seq<Activity>)
    requires SortedByDate(s)
    ensures SortByDate(s) == s
  {
    if s != [] {
      SortedUnchanged(s[1..]);
      assert s == [s[0]] + s[1..];
    }
  }

  /**
   * The sort is stable: for every date, the records bearing it appear in the
   * sorted sequence in the same order as in the input.
   */
  lemma {:induction false} SortIsStable(s: seq<Activity>, day: int)
    ensures OnDay(SortByDate(s), day) == OnDay(s, day)
  {
    if s != [] {
      InsertOnDay(s[0], SortByDate(s[1..]), day);
      SortIsStable(s[1..], day);
    }
  }
}
