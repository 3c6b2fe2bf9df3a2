/**
 * The analytics view's chart data and summary statistics. The records are
 * sorted by date; in daily mode the last 30 are charted as they are; in weekly
 * and monthly mode they are folded into one accumulator per week or month and
 * each accumulator is charted as per-day averages.
 */
module StepAnalytics {
  import opened Activities
  import opened Calendar
  import opened Options

  /** The period selector of the view. */
  datatype TimeRange = Daily | Weekly | Monthly

  /**
   * What a chart point is filed under (its `fullDate`): a day, written as an
   * ISO date in the source (the record's own date in daily mode, the Sunday
   * that starts the week in weekly mode), or the text of a month key.
   */
  datatype BucketKey = Day(day: int) | Month(text: string)

  /** One point of the chart: the displayed values of a day, week or month. */
  datatype Point = Point(fullDate: BucketKey, steps: int, calories: int, standingHours: int, distance: real)

  /** A week's or month's running totals while the records are folded. */
  datatype Accumulator = Accumulator(key: BucketKey, steps: int, calories: int, standingHours: int, distance: real, days: int)

  /** Number of most recent records the daily chart shows. */
  const DailyWindow: nat := 30

  // ----- Rounding -----

  /** `Math.round`: the nearest integer, halves rounded up. */
  function MathRound(x: real): (r: int)
    ensures r as real - 0.5 <= x < r as real + 0.5
  {
    (x + 0.5).Floor
  }

  /** `cents` is `x` to the nearest hundredth: within half a hundredth of it. */
  predicate NearestCent(cents: real, x: real)
  {
    cents - 0.005 <= x < cents + 0.005
  }

  /** `Math.round(x * 100) / 100`: `x` to two decimal places, a whole number of hundredths. */
  function RoundCents(x: real): (r: real)
    ensures NearestCent(r, x)
    ensures (r * 100.0).Floor as real == r * 100.0
  {
    MathRound(x * 100.0) as real / 100.0
  }

  /** Rounding a value that lies between two integers stays between them. */
  lemma RoundWithin(x: real, lo: int, hi: int)
    requires lo as real <= x <= hi as real
    ensures lo <= MathRound(x) <= hi
  {
  }

  /** Dividing by a positive number keeps a lower bound scaled by it. */
  lemma DivAtLeast(t: real, m: real, c: real)
    requires m > 0.0 && c * m <= t
    ensures c <= t / m
  {
  }

  /** Dividing by a positive number keeps an upper bound scaled by it. */
  lemma DivAtMost(t: real, m: real, c: real)
    requires m > 0.0 && t <= c * m
    ensures t / m <= c
  {
  }

  /**
   * The rounded mean of a total over `n` items each between `lo` and `hi`
   * lies between `lo` and `hi`.
   */
  lemma MeanWithin(total: int, n: int, lo: int, hi: int)
    requires n >= 1
    requires lo * n <= total <= hi * n
    ensures lo <= MathRound(total as real / n as real) <= hi
  {
    var m := n as real;
    assert (lo * n) as real == lo as real * m && (hi * n) as real == hi as real * m;
    DivAtLeast(total as real, m, lo as real);
    DivAtMost(total as real, m, hi as real);
    RoundWithin(total as real / m, lo, hi);
  }

  // ----- Bucket keys -----

  /**
   * The key a record is grouped under: its date in daily mode, the Sunday
   * starting its week in weekly mode, `${year}-${month}` in monthly mode.
   */
  function KeyOf(range: TimeRange, a: Activity): BucketKey
  {
    match range
    case Daily => Day(a.date)
    case Weekly => Day(WeekStart(a.date))
    case Monthly => Month(MonthKey(YearMonthOf(a.date)))
  }

  /** The key function of a period mode, as the fold applies it to each record. */
  function Keying(range: TimeRange): Activity -> BucketKey
  {
    a => KeyOf(range, a)
  }

  /**
   * Two records share a weekly bucket exactly when they lie in the same
   * Sunday-started week, and a monthly bucket exactly when they lie in the
   * same calendar year and month. A weekly key is always a Sunday.
   */
  lemma SameBucketIff(a: Activity, b: Activity)
    ensures KeyOf(Weekly, a).day == WeekStart(a.date) && Weekday(KeyOf(Weekly, a).day) == 0
    ensures KeyOf(Weekly, a) == KeyOf(Weekly, b) <==> WeekStart(a.date) <= b.date < WeekStart(a.date) + 7
    ensures KeyOf(Monthly, a) == KeyOf(Monthly, b) <==> YearMonthOf(a.date) == YearMonthOf(b.date)
  {
    SameWeekIff(a.date, b.date);
    SameMonthIff(a.date, b.date);
  }

  // ----- Daily mode -----

  /** A record charted as it is, with its distance converted to kilometres and rounded to cents. */
  function DailyPoint(a: Activity): Point
  {
    Point(Day(a.date), a.steps, a.caloriesBurned, a.standingHours, RoundCents(a.distanceMeters as real / 1000.0))
  }

  /**
   * `slice(-30).map(...)`: the last 30 records (all of them when there are
   * fewer), in order, each with its date, steps, calories and standing hours
   * copied unchanged.
   */
  function DailyPoints(sorted: seq<Activity>): (r: seq<Point>)
    ensures |r| == if |sorted| < DailyWindow then |sorted| else DailyWindow
    ensures forall i :: 0 <= i < |r| ==>
      var a := sorted[|sorted| - |r| + i];
      r[i].fullDate == Day(a.date) && r[i].steps == a.steps &&
      r[i].calories == a.caloriesBurned && r[i].standingHours == a.standingHours &&
      NearestCent(r[i].distance, a.distanceMeters as real / 1000.0)
  {
    var recent := if |sorted| < DailyWindow then sorted else sorted[|sorted| - DailyWindow..];
    seq(|recent|, i requires 0 <= i < |recent| => DailyPoint(recent[i]))
  }

  // ----- Weekly and monthly mode: the buckets, defined by what they hold -----

  /** The bucket key of every record, in order. */
  function KeysOf(rs: seq<Activity>, keyOf: Activity -> BucketKey): (ks: seq<BucketKey>)
    ensures |ks| == |rs| && forall i :: 0 <= i < |rs| ==> ks[i] == keyOf(rs[i])
  {
    seq(|rs|, i requires 0 <= i < |rs| => keyOf(rs[i]))
  }

  /** No element occurs twice. */
  ghost predicate Distinct<T>(s: seq<T>)
  {
    forall i, j :: 0 <= i < j < |s| ==> s[i] != s[j]
  }

  /** The distinct elements of `ks`, each at the place where it first occurs. */
  function FirstSeen(ks: seq<BucketKey>): (r: seq<BucketKey>)
    ensures Distinct(r)
    ensures forall k :: k in r <==> k in ks
  {
    if ks == [] then []
    else
      var seen := FirstSeen(ks[..|ks| - 1]);
      var k := ks[|ks| - 1];
      assert ks == ks[..|ks| - 1] + [k];
      if k in seen then seen else seen + [k]
  }

  /** An accumulator with nothing folded into it yet. */
  function Empty(key: BucketKey): Accumulator
  {
    Accumulator(key, 0, 0, 0, 0.0, 0)
  }

  /** Folds one more record into an accumulator: its values added, its day counted. */
  function Add(b: Accumulator, a: Activity): Accumulator
  {
    b.(steps := b.steps + a.steps, calories := b.calories + a.caloriesBurned,
       standingHours := b.standingHours + a.standingHours,
       distance := b.distance + a.distanceMeters as real / 1000.0, days := b.days + 1)
  }

  /**
   * The totals of the records of `rs` whose key is `key`: the sums of their
   * steps, calories, standing hours and kilometres, and their number.
   */
  function Tally(rs: seq<Activity>, keyOf: Activity -> BucketKey, key: BucketKey): (b: Accumulator)
    ensures b.key == key && 0 <= b.days <= |rs|
  {
    if rs == [] then Empty(key)
    else
      var b := Tally(rs[..|rs| - 1], keyOf, key);
      if keyOf(rs[|rs| - 1]) == key then Add(b, rs[|rs| - 1]) else b
  }

  /**
   * The accumulators of a weekly or monthly pass over `rs`: one per distinct
   * key, in the order the keys are first seen, each holding the totals of
   * exactly the records with its key.
   */
  function Buckets(rs: seq<Activity>, keyOf: Activity -> BucketKey): (bs: seq<Accumulator>)
  {
    var ks := FirstSeen(KeysOf(rs, keyOf));
    seq(|ks|, i requires 0 <= i < |ks| => Tally(rs, keyOf, ks[i]))
  }

  /**
   * No key has two accumulators; a key has an accumulator exactly when some
   * record has that key; each accumulator holds the totals of its key's
   * records, and at least one record.
   */
  lemma BucketsShape(rs: seq<Activity>, keyOf: Activity -> BucketKey)
    ensures var bs := Buckets(rs, keyOf);
      (forall i, j :: 0 <= i < j < |bs| ==> bs[i].key != bs[j].key) &&
      (forall k :: k in KeysOf(rs, keyOf) <==> exists i :: 0 <= i < |bs| && bs[i].key == k) &&
      (forall i :: 0 <= i < |bs| ==> bs[i] == Tally(rs, keyOf, bs[i].key) && bs[i].days >= 1)
  {
    var ks, bs := FirstSeen(KeysOf(rs, keyOf)), Buckets(rs, keyOf);
    assert forall i :: 0 <= i < |ks| ==> bs[i].key == ks[i];
    assert forall k :: k in ks ==> exists i :: 0 <= i < |bs| && bs[i].key == k;
    forall i | 0 <= i < |ks| ensures bs[i].days >= 1 {
      TallyPresence(rs, keyOf, ks[i]);
    }
  }

  /** Every bucket holds at least one record. */
  lemma BucketsNonEmpty(rs: seq<Activity>, keyOf: Activity -> BucketKey)
    ensures forall i :: 0 <= i < |Buckets(rs, keyOf)| ==> Buckets(rs, keyOf)[i].days >= 1
  {
    BucketsShape(rs, keyOf);
  }

  /** Records with no record of the key leave its totals empty; one record of it makes them non-empty. */
  lemma {:induction false} TallyPresence(rs: seq<Activity>, keyOf: Activity -> BucketKey, key: BucketKey)
    ensures key !in KeysOf(rs, keyOf) ==> Tally(rs, keyOf, key) == Empty(key)
    ensures key in KeysOf(rs, keyOf) ==> Tally(rs, keyOf, key).days >= 1
  {
    if rs != [] {
      var p := rs[..|rs| - 1];
      assert KeysOf(rs, keyOf) == KeysOf(p, keyOf) + [keyOf(rs[|rs| - 1])];
      TallyPresence(p, keyOf, key);
    }
  }

  /**
   * How one more record changes the buckets: the accumulator of its key gains
   * it, every other accumulator stays as it was, and a key not seen before
   * gets a new accumulator at the end holding just that record.
   */
  lemma BucketsAppend(p: seq<Activity>, a: Activity, keyOf: Activity -> BucketKey)
    ensures var bs, bs', k := Buckets(p, keyOf), Buckets(p + [a], keyOf), keyOf(a);
      (k in KeysOf(p, keyOf) ==> |bs'| == |bs|) &&
      (k !in KeysOf(p, keyOf) ==> |bs'| == |bs| + 1 && bs'[|bs|] == Add(Empty(k), a)) &&
      forall i :: 0 <= i < |bs| ==> bs'[i] == if bs[i].key == k then Add(bs[i], a) else bs[i]
  {
    var q, k := p + [a], keyOf(a);
    assert q[..|q| - 1] == p;
    assert KeysOf(q, keyOf)[..|q| - 1] == KeysOf(p, keyOf);
    TallyPresence(p, keyOf, k);
  }

  /** A record whose key already has an accumulator is added to that accumulator. */
  lemma AppendToExisting(p: seq<Activity>, a: Activity, keyOf: Activity -> BucketKey, j: nat)
    requires j < |Buckets(p, keyOf)| && Buckets(p, keyOf)[j].key == keyOf(a)
    ensures Buckets(p + [a], keyOf) == Buckets(p, keyOf)[j := Add(Buckets(p, keyOf)[j], a)]
  {
    var bs, bs' := Buckets(p, keyOf), Buckets(p + [a], keyOf);
    BucketsAppend(p, a, keyOf);
    BucketsShape(p, keyOf);
    assert |bs'| == |bs|;
    forall i | 0 <= i < |bs| ensures bs'[i] == bs[j := Add(bs[j], a)][i] {
      assert i != j ==> bs[i].key != bs[j].key;
    }
  }

  /** A record whose key has no accumulator yet gets a new one, pushed at the end. */
  lemma AppendNew(p: seq<Activity>, a: Activity, keyOf: Activity -> BucketKey)
    requires forall i :: 0 <= i < |Buckets(p, keyOf)| ==> Buckets(p, keyOf)[i].key != keyOf(a)
    ensures Buckets(p + [a], keyOf) == Buckets(p, keyOf) + [Add(Empty(keyOf(a)), a)]
  {
    var bs, bs' := Buckets(p, keyOf), Buckets(p + [a], keyOf);
    BucketsAppend(p, a, keyOf);
    BucketsShape(p, keyOf);
    assert |bs'| == |bs| + 1;
    forall i | 0 <= i < |bs'| ensures bs'[i] == (bs + [Add(Empty(keyOf(a)), a)])[i] {
    }
  }

  // ----- Weekly and monthly mode: the fold as the view runs it -----

  /** `find`: the index of the first accumulator with the given key, if any. */
  method FindBucket(acc: seq<Accumulator>, key: BucketKey) returns (found: Option<nat>)
    ensures found.None? <==> forall i :: 0 <= i < |acc| ==> acc[i].key != key
    ensures found.Some? ==>
      found.value < |acc| && acc[found.value].key == key &&
      (forall i :: 0 <= i < found.value ==> acc[i].key != key)
  {
    var i := 0;
    while i < |acc|
      invariant 0 <= i <= |acc|
      invariant forall j :: 0 <= j < i ==> acc[j].key != key
    {
      if acc[i].key == key {
        return Some(i);
      }
      i := i + 1;
    }
    return None;
  }

  /**
   * The `forEach` over the sorted records: each record is added in place to
   * the accumulator found for its key, or starts a new accumulator pushed at
   * the end. The result is exactly the buckets of the records.
   */
  method Accumulate(sorted: seq<Activity>, keyOf: Activity -> BucketKey) returns (acc: seq<Accumulator>)
    ensures acc == Buckets(sorted, keyOf)
  {
    acc := [];
    var n := 0;
    while n < |sorted|
      invariant 0 <= n <= |sorted|
      invariant acc == Buckets(sorted[..n], keyOf)
    {
      var a := sorted[n];
      var key := keyOf(a);
      assert sorted[..n + 1] == sorted[..n] + [a];
      var found := FindBucket(acc, key);
      if found.Some? {
        var j := found.value;
        var b := acc[j];
        AppendToExisting(sorted[..n], a, keyOf, j);
        acc := acc[j := b.(steps := b.steps + a.steps, calories := b.calories + a.caloriesBurned,
                           standingHours := b.standingHours + a.standingHours,
                           distance := b.distance + a.distanceMeters as real / 1000.0, days := b.days + 1)];
      } else {
        AppendNew(sorted[..n], a, keyOf);
        acc := acc + [Accumulator(key, a.steps, a.caloriesBurned, a.standingHours,
                                  a.distanceMeters as real / 1000.0, 1)];
      }
      n := n + 1;
    }
    assert sorted[..n] == sorted;
  }

  // ----- Properties of the buckets -----

  /** One numeric field of every element, in order (a `map(x => x.field)`). */
  function Project<T>(xs: seq<T>, field: T -> int): (ys: seq<int>)
    ensures |ys| == |xs| && forall i :: 0 <= i < |xs| ==> ys[i] == field(xs[i])
  {
    seq(|xs|, i requires 0 <= i < |xs| => field(xs[i]))
  }

  /** The sum of a series of numbers. */
  function Sum(xs: seq<int>): int
  {
    if xs == [] then 0 else Sum(xs[..|xs| - 1]) + xs[|xs| - 1]
  }

  /** The sum of one numeric field over a sequence of accumulators. */
  function Total(bs: seq<Accumulator>, field: Accumulator -> int): int
  {
    Sum(Project(bs, field))
  }

  /** Replacing one number of a series changes its sum by the difference. */
  lemma {:induction false} SumUpdate(xs: seq<int>, j: nat, v: int)
    requires j < |xs|
    ensures Sum(xs[j := v]) == Sum(xs) - xs[j] + v
  {
    var n := |xs|;
    assert xs[j := v][..n - 1] == if j < n - 1 then xs[..n - 1][j := v] else xs[..n - 1];
    if j < n - 1 {
      SumUpdate(xs[..n - 1], j, v);
    }
  }

  /** Appending a number to a series adds it to the sum. */
  lemma SumAppend(xs: seq<int>, v: int)
    ensures Sum(xs + [v]) == Sum(xs) + v
  {
    assert (xs + [v])[..|xs|] == xs;
  }

  lemma TotalUpdate(bs: seq<Accumulator>, j: nat, b: Accumulator, field: Accumulator -> int)
    requires j < |bs|
    ensures Total(bs[j := b], field) == Total(bs, field) - field(bs[j]) + field(b)
  {
    assert Project(bs[j := b], field) == Project(bs, field)[j := field(b)];
    SumUpdate(Project(bs, field), j, field(b));
  }

  lemma TotalAppend(bs: seq<Accumulator>, b: Accumulator, field: Accumulator -> int)
    ensures Total(bs + [b], field) == Total(bs, field) + field(b)
  {
    assert Project(bs + [b], field) == Project(bs, field) + [field(b)];
    SumAppend(Project(bs, field), field(b));
  }

  /**
   * One more record adds one to the buckets' total day count and its steps
   * to their total steps.
   */
  lemma TotalsAfterAppend(p: seq<Activity>, a: Activity, keyOf: Activity -> BucketKey)
    ensures Total(Buckets(p + [a], keyOf), (b: Accumulator) => b.days) ==
      Total(Buckets(p, keyOf), (b: Accumulator) => b.days) + 1
    ensures Total(Buckets(p + [a], keyOf), (b: Accumulator) => b.steps) ==
      Total(Buckets(p, keyOf), (b: Accumulator) => b.steps) + a.steps
  {
    var bs, k := Buckets(p, keyOf), keyOf(a);
    BucketsShape(p, keyOf);
    if k in KeysOf(p, keyOf) {
      var j :| 0 <= j < |bs| && bs[j].key == k;
      AppendToExisting(p, a, keyOf, j);
      TotalUpdate(bs, j, Add(bs[j], a), (b: Accumulator) => b.days);
      TotalUpdate(bs, j, Add(bs[j], a), (b: Accumulator) => b.steps);
    } else {
      AppendNew(p, a, keyOf);
      TotalAppend(bs, Add(Empty(k), a), (b: Accumulator) => b.days);
      TotalAppend(bs, Add(Empty(k), a), (b: Accumulator) => b.steps);
    }
  }

  /** Folding loses and duplicates no record: the day counts of all accumulators add up to the number of records. */
  lemma {:induction false} DaysConserved(rs: seq<Activity>, keyOf: Activity -> BucketKey)
    ensures Total(Buckets(rs, keyOf), (b: Accumulator) => b.days) == |rs|
  {
    if rs != [] {
      var p, a := rs[..|rs| - 1], rs[|rs| - 1];
      assert rs == p + [a];
      DaysConserved(p, keyOf);
      TotalsAfterAppend(p, a, keyOf);
    }
  }

  /** The steps of all accumulators add up to the records' total steps. */
  lemma {:induction false} StepsConserved(rs: seq<Activity>, keyOf: Activity -> BucketKey)
    ensures Total(Buckets(rs, keyOf), (b: Accumulator) => b.steps) == Sum(Project(rs, (a: Activity) => a.steps))
  {
    if rs != [] {
      var p, a := rs[..|rs| - 1], rs[|rs| - 1];
      assert rs == p + [a];
      assert Project(rs, (a: Activity) => a.steps)[..|rs| - 1] == Project(p, (a: Activity) => a.steps);
      StepsConserved(p, keyOf);
      TotalsAfterAppend(p, a, keyOf);
    }
  }

  /** First-seen order of non-decreasing day keys is strictly increasing. */
  lemma {:induction false} FirstSeenIncreasing(ks: seq<BucketKey>)
    requires forall i :: 0 <= i < |ks| ==> ks[i].Day?
    requires forall i, j :: 0 <= i < j < |ks| ==> ks[i].day <= ks[j].day
    ensures forall i :: 0 <= i < |FirstSeen(ks)| ==> FirstSeen(ks)[i].Day?
    ensures forall i, j :: 0 <= i < j < |FirstSeen(ks)| ==> FirstSeen(ks)[i].day < FirstSeen(ks)[j].day
  {
    if ks != [] {
      var p, k := ks[..|ks| - 1], ks[|ks| - 1];
      FirstSeenIncreasing(p);
      var seen := FirstSeen(p);
      forall x | x in seen ensures x.Day? && x.day <= k.day {
        var i :| 0 <= i < |p| && p[i] == x;
      }
      if k !in seen {
        forall i | 0 <= i < |seen| ensures seen[i].day < k.day {
          assert seen[i] in seen;
          assert seen[i] == Day(seen[i].day) && k == Day(k.day);
        }
        var r := FirstSeen(ks);
        assert r == seen + [k];
        forall i, j | 0 <= i < j < |r| ensures r[i].day < r[j].day {
          if j == |seen| {
            assert r[i] == seen[i] && r[j] == k;
            assert seen[i].day < k.day;
          } else {
            assert r[i] == seen[i] && r[j] == seen[j];
            assert seen[i].day < seen[j].day;
          }
        }
      }
    }
  }

  /**
   * Over records sorted by date, the weekly accumulators come out in
   * chronological order: each starts on a later Sunday than the one before.
   */
  lemma WeeklyBucketsChronological(rs: seq<Activity>)
    requires SortedByDate(rs)
    ensures forall i :: 0 <= i < |Buckets(rs, Keying(Weekly))| ==> Buckets(rs, Keying(Weekly))[i].key.Day?
    ensures forall i, j :: 0 <= i < j < |Buckets(rs, Keying(Weekly))| ==>
      Buckets(rs, Keying(Weekly))[i].key.day < Buckets(rs, Keying(Weekly))[j].key.day
  {
    var ks := KeysOf(rs, Keying(Weekly));
    forall i, j | 0 <= i < j < |ks| ensures ks[i].day <= ks[j].day {
      WeekStartMonotone(rs[i].date, rs[j].date);
    }
    FirstSeenIncreasing(ks);
    var bs := Buckets(rs, Keying(Weekly));
    assert forall i :: 0 <= i < |bs| ==> bs[i].key == FirstSeen(ks)[i];
  }

  /**
   * First-seen order follows a rank that never decreases along the keys and
   * that two positions share exactly when they share a key: every position
   * of an earlier first-seen key ranks below every position of a later one.
   */
  lemma {:induction false} FirstSeenRanked(ks: seq<BucketKey>, ns: seq<int>)
    requires |ns| == |ks|
    requires forall x, y :: 0 <= x < y < |ns| ==> ns[x] <= ns[y]
    requires forall x, y :: 0 <= x < |ks| && 0 <= y < |ks| ==> (ks[x] == ks[y] <==> ns[x] == ns[y])
    ensures forall i, j, x, y ::
      (0 <= i < j < |FirstSeen(ks)| && 0 <= x < |ks| && 0 <= y < |ks| &&
       ks[x] == FirstSeen(ks)[i] && ks[y] == FirstSeen(ks)[j]) ==> ns[x] < ns[y]
  {
    if ks != [] {
      var m := |ks| - 1;
      var p, k := ks[..m], ks[m];
      FirstSeenRanked(p, ns[..m]);
      var seen, r := FirstSeen(p), FirstSeen(ks);
      forall i, j, x, y | 0 <= i < j < |r| && 0 <= x < |ks| && 0 <= y < |ks| && ks[x] == r[i] && ks[y] == r[j]
        ensures ns[x] < ns[y]
      {
        if k in seen {
          assert r == seen;
          var x', y' := x, y;
          if x == m {
            x' :| 0 <= x' < m && p[x'] == k;
          }
          if y == m {
            y' :| 0 <= y' < m && p[y'] == k;
          }
          assert p[x'] == seen[i] && p[y'] == seen[j];
          assert ns[..m][x'] < ns[..m][y'];
        } else {
          assert r == seen + [k];
          assert x < m by {
            assert ks[x] in seen;
          }
          assert p[x] == seen[i];
          if j < |seen| {
            assert y < m by {
              assert ks[y] in seen;
            }
            assert ns[..m][x] < ns[..m][y];
          } else {
            assert ks[y] == ks[m] && ks[x] != ks[m];
          }
        }
      }
    }
  }

  /**
   * The buckets follow a rank of the records that never decreases along `rs`
   * and that two records share exactly when they share a key: every record of
   * an earlier bucket ranks below every record of a later one.
   */
  lemma BucketsRanked(rs: seq<Activity>, keyOf: Activity -> BucketKey, rank: Activity -> int)
    requires forall x, y :: 0 <= x < y < |rs| ==> rank(rs[x]) <= rank(rs[y])
    requires forall x, y :: 0 <= x < |rs| && 0 <= y < |rs| ==> (keyOf(rs[x]) == keyOf(rs[y]) <==> rank(rs[x]) == rank(rs[y]))
    ensures forall i, j, x, y ::
      (0 <= i < j < |Buckets(rs, keyOf)| && 0 <= x < |rs| && 0 <= y < |rs| &&
       keyOf(rs[x]) == Buckets(rs, keyOf)[i].key && keyOf(rs[y]) == Buckets(rs, keyOf)[j].key) ==>
      rank(rs[x]) < rank(rs[y])
  {
    var ks := KeysOf(rs, keyOf);
    var ns := seq(|rs|, x requires 0 <= x < |rs| => rank(rs[x]));
    FirstSeenRanked(ks, ns);
    var bs := Buckets(rs, keyOf);
    forall i, j, x, y | 0 <= i < j < |bs| && 0 <= x < |rs| && 0 <= y < |rs| &&
      keyOf(rs[x]) == bs[i].key && keyOf(rs[y]) == bs[j].key
      ensures rank(rs[x]) < rank(rs[y])
    {
      assert bs[i].key == FirstSeen(ks)[i] && bs[j].key == FirstSeen(ks)[j];
      assert ks[x] == keyOf(rs[x]) && ks[y] == keyOf(rs[y]);
      assert ns[x] == rank(rs[x]) && ns[y] == rank(rs[y]);
    }
  }

  /** The month index of its date: a rank of records that sorting by date never decreases. */
  function MonthRank(a: Activity): int
  {
    MonthIndex(YearMonthOf(a.date))
  }

  /** Along date-sorted records the month rank never decreases, and it is shared exactly by records of one month bucket. */
  lemma MonthRankFits(rs: seq<Activity>)
    requires SortedByDate(rs)
    ensures forall x, y :: 0 <= x < y < |rs| ==> MonthRank(rs[x]) <= MonthRank(rs[y])
    ensures forall x, y :: 0 <= x < |rs| && 0 <= y < |rs| ==>
      (Keying(Monthly)(rs[x]) == Keying(Monthly)(rs[y]) <==> MonthRank(rs[x]) == MonthRank(rs[y]))
  {
    forall x, y | 0 <= x < y < |rs| ensures MonthRank(rs[x]) <= MonthRank(rs[y]) {
      MonthIndexMonotone(rs[x].date, rs[y].date);
    }
    forall x, y | 0 <= x < |rs| && 0 <= y < |rs|
      ensures Keying(Monthly)(rs[x]) == Keying(Monthly)(rs[y]) <==> MonthRank(rs[x]) == MonthRank(rs[y])
    {
      SameMonthIff(rs[x].date, rs[y].date);
      BeforeIff(YearMonthOf(rs[x].date), YearMonthOf(rs[y].date));
    }
  }

  /**
   * Over records sorted by date, the monthly accumulators come out in
   * chronological order: every record of an earlier accumulator falls in an
   * earlier calendar month than every record of a later one.
   */
  lemma MonthlyBucketsChronological(rs: seq<Activity>)
    requires SortedByDate(rs)
    ensures forall i, j, x, y ::
      (0 <= i < j < |Buckets(rs, Keying(Monthly))| && 0 <= x < |rs| && 0 <= y < |rs| &&
       Keying(Monthly)(rs[x]) == Buckets(rs, Keying(Monthly))[i].key &&
       Keying(Monthly)(rs[y]) == Buckets(rs, Keying(Monthly))[j].key) ==>
      Before(YearMonthOf(rs[x].date), YearMonthOf(rs[y].date))
  {
    MonthRankFits(rs);
    BucketsRanked(rs, Keying(Monthly), MonthRank);
    forall x, y | 0 <= x < |rs| && 0 <= y < |rs| && MonthRank(rs[x]) < MonthRank(rs[y])
      ensures Before(YearMonthOf(rs[x].date), YearMonthOf(rs[y].date))
    {
      BeforeIff(YearMonthOf(rs[x].date), YearMonthOf(rs[y].date));
    }
  }

  // ----- Averaging -----

  /**
   * A week's or month's chart point: each total divided by the number of
   * days folded in, rounded to a whole number (distance to cents).
   */
  function Average(b: Accumulator): (p: Point)
    requires b.days >= 1
    ensures p.fullDate == b.key
    ensures p.steps as real - 0.5 <= b.steps as real / b.days as real < p.steps as real + 0.5
    ensures p.calories as real - 0.5 <= b.calories as real / b.days as real < p.calories as real + 0.5
    ensures p.standingHours as real - 0.5 <= b.standingHours as real / b.days as real < p.standingHours as real + 0.5
    ensures NearestCent(p.distance, b.distance / b.days as real)
    ensures (p.distance * 100.0).Floor as real == p.distance * 100.0
  {
    var n := b.days as real;
    Point(b.key, MathRound(b.steps as real / n), MathRound(b.calories as real / n),
          MathRound(b.standingHours as real / n), RoundCents(b.distance / n))
  }

  lemma {:induction false} TallyStepsWithin(rs: seq<Activity>, keyOf: Activity -> BucketKey, key: BucketKey, lo: int, hi: int)
    requires forall i :: 0 <= i < |rs| && keyOf(rs[i]) == key ==> lo <= rs[i].steps <= hi
    ensures var b := Tally(rs, keyOf, key); lo * b.days <= b.steps <= hi * b.days
  {
    if rs != [] {
      var p := rs[..|rs| - 1];
      TallyStepsWithin(p, keyOf, key, lo, hi);
      var b := Tally(p, keyOf, key);
      assert lo * (b.days + 1) == lo * b.days + lo && hi * (b.days + 1) == hi * b.days + hi;
    }
  }

  /**
   * A bucket's displayed steps lie between the least and the greatest steps
   * of the records folded into it: any bounds on those records bound it too.
   */
  lemma BucketAverageWithin(rs: seq<Activity>, keyOf: Activity -> BucketKey, i: nat, lo: int, hi: int)
    requires i < |Buckets(rs, keyOf)|
    requires forall j :: 0 <= j < |rs| && keyOf(rs[j]) == Buckets(rs, keyOf)[i].key ==>
      lo <= rs[j].steps <= hi
    ensures Buckets(rs, keyOf)[i].days >= 1
    ensures lo <= Average(Buckets(rs, keyOf)[i]).steps <= hi
  {
    var b := Buckets(rs, keyOf)[i];
    BucketsShape(rs, keyOf);
    TallyStepsWithin(rs, keyOf, b.key, lo, hi);
    MeanWithin(b.steps, b.days, lo, hi);
  }

  // ----- The chart data -----

  /**
   * What the view charts for the records in the given period mode: the
   * daily points of the sorted records, or the averages of their weekly or
   * monthly buckets.
   */
  function ChartPoints(activities: seq<Activity>, range: TimeRange): seq<Point>
  {
    var sorted := SortByDate(activities);
    if range == Daily then DailyPoints(sorted)
    else
      BucketsNonEmpty(sorted, Keying(range));
      Averages(Buckets(sorted, Keying(range)))
  }

  /** The final `map`: every accumulator turned into its chart point. */
  function Averages(bs: seq<Accumulator>): (points: seq<Point>)
    requires forall i :: 0 <= i < |bs| ==> bs[i].days >= 1
    ensures |points| == |bs| && forall i :: 0 <= i < |bs| ==> points[i] == Average(bs[i])
  {
    seq(|bs|, i requires 0 <= i < |bs| => Average(bs[i]))
  }

  /**
   * The `chartData` computation: sort a copy of the records by date, then
   * either take the daily points or fold the records into accumulators and
   * chart their averages.
   */
  method ChartData(activities: seq<Activity>, range: TimeRange) returns (chartData: seq<Point>)
    ensures chartData == ChartPoints(activities, range)
  {
    var sorted := SortByDate(activities);
    if range == Daily {
      return DailyPoints(sorted);
    }
    var acc := Accumulate(sorted, Keying(range));
    BucketsNonEmpty(sorted, Keying(range));
    chartData := Averages(acc);
  }

  /** In every mode there is something to chart exactly when there is at least one record. */
  lemma ChartEmptyIff(activities: seq<Activity>, range: TimeRange)
    ensures ChartPoints(activities, range) == [] <==> activities == []
  {
    var sorted := SortByDate(activities);
    if range != Daily && sorted != [] {
      BucketsShape(sorted, Keying(range));
      assert Keying(range)(sorted[0]) in KeysOf(sorted, Keying(range));
    }
  }

  /**
   * Daily mode charts the last `min(30, n)` of the sorted records, in
   * order, with their values unchanged.
   */
  lemma DailyChart(activities: seq<Activity>)
    ensures |ChartPoints(activities, Daily)| == if |activities| < DailyWindow then |activities| else DailyWindow
    ensures forall i :: 0 <= i < |ChartPoints(activities, Daily)| ==>
      ChartPoints(activities, Daily)[i] ==
        DailyPoint(SortByDate(activities)[|activities| - |ChartPoints(activities, Daily)| + i])
  {
    var sorted := SortByDate(activities);
    var points := ChartPoints(activities, Daily);
    DailyMode(activities);
    assert points == DailyPoints(sorted);
    DailyPointsOfLast(sorted);
    forall i | 0 <= i < |points| ensures points[i] == DailyPoint(sorted[|activities| - |points| + i]) {
      assert points[i] == DailyPoints(sorted)[i];
    }
  }

  /** Daily mode charts the daily points of the sorted records. */
  lemma DailyMode(activities: seq<Activity>)
    ensures ChartPoints(activities, Daily) == DailyPoints(SortByDate(activities))
    ensures |SortByDate(activities)| == |activities|
  {
  }

  /** Each daily point is the point of the record at the same place among the last `min(30, n)` records. */
  lemma DailyPointsOfLast(sorted: seq<Activity>)
    ensures forall i :: 0 <= i < |DailyPoints(sorted)| ==>
      DailyPoints(sorted)[i] == DailyPoint(sorted[|sorted| - |DailyPoints(sorted)| + i])
  {
    var points := DailyPoints(sorted);
    var recent := if |sorted| < DailyWindow then sorted else sorted[|sorted| - DailyWindow..];
    forall i | 0 <= i < |points| ensures points[i] == DailyPoint(sorted[|sorted| - |points| + i]) {
      assert recent[i] == sorted[|sorted| - |points| + i];
    }
  }

  /**
   * Weekly and monthly mode chart one point per bucket, in bucket order:
   * each point carries its bucket's key and its bucket's averages.
   */
  lemma BucketPoints(activities: seq<Activity>, range: TimeRange)
    requires range != Daily
    ensures var points, bs := ChartPoints(activities, range), Buckets(SortByDate(activities), Keying(range));
      |points| == |bs| &&
      forall i :: 0 <= i < |points| ==> bs[i].days >= 1 && points[i] == Average(bs[i])
  {
    BucketsShape(SortByDate(activities), Keying(range));
  }

  /**
   * In weekly and monthly mode the buckets' day counts add up to the number
   * of records, and each point's steps are its bucket's per-day mean rounded
   * to the nearest whole number.
   */
  lemma BucketChart(activities: seq<Activity>, range: TimeRange)
    requires range != Daily
    ensures var points, bs := ChartPoints(activities, range), Buckets(SortByDate(activities), Keying(range));
      |points| == |bs| &&
      Total(bs, (b: Accumulator) => b.days) == |activities| &&
      forall i :: 0 <= i < |points| ==>
        points[i].fullDate == bs[i].key && bs[i].days >= 1 &&
        points[i].steps as real - 0.5 <= bs[i].steps as real / bs[i].days as real < points[i].steps as real + 0.5
  {
    BucketPoints(activities, range);
    DaysConserved(SortByDate(activities), Keying(range));
  }

  /**
   * The weekly chart is in chronological order: its points are filed under
   * ever later Sundays.
   */
  lemma WeeklyChartChronological(activities: seq<Activity>)
    ensures forall i :: 0 <= i < |ChartPoints(activities, Weekly)| ==> ChartPoints(activities, Weekly)[i].fullDate.Day?
    ensures forall i, j :: 0 <= i < j < |ChartPoints(activities, Weekly)| ==>
      ChartPoints(activities, Weekly)[i].fullDate.day < ChartPoints(activities, Weekly)[j].fullDate.day
  {
    var points, bs := ChartPoints(activities, Weekly), Buckets(SortByDate(activities), Keying(Weekly));
    BucketPoints(activities, Weekly);
    WeeklyBucketsChronological(SortByDate(activities));
    forall i, j | 0 <= i < j < |points|
      ensures points[i].fullDate.Day? && points[j].fullDate.Day? && points[i].fullDate.day < points[j].fullDate.day
    {
      assert points[i].fullDate == bs[i].key && points[j].fullDate == bs[j].key;
    }
  }

  /** Where a record stands in the sorted copy of the records. */
  lemma SortedIndex(activities: seq<Activity>, a: Activity) returns (x: nat)
    requires a in activities
    ensures x < |SortByDate(activities)| && SortByDate(activities)[x] == a
  {
    assert a in multiset(SortByDate(activities));
    x :| 0 <= x < |SortByDate(activities)| && SortByDate(activities)[x] == a;
  }

  /**
   * The monthly chart is in chronological order: every record charted under
   * an earlier point falls in an earlier calendar month than every record
   * charted under a later one.
   */
  lemma MonthlyChartChronological(activities: seq<Activity>)
    ensures forall i, j, a, b ::
      (0 <= i < j < |ChartPoints(activities, Monthly)| && a in activities && b in activities &&
       Keying(Monthly)(a) == ChartPoints(activities, Monthly)[i].fullDate &&
       Keying(Monthly)(b) == ChartPoints(activities, Monthly)[j].fullDate) ==>
      Before(YearMonthOf(a.date), YearMonthOf(b.date))
  {
    var sorted := SortByDate(activities);
    var points, bs := ChartPoints(activities, Monthly), Buckets(sorted, Keying(Monthly));
    BucketPoints(activities, Monthly);
    MonthlyBucketsChronological(sorted);
    forall i, j, a, b | 0 <= i < j < |points| && a in activities && b in activities &&
      Keying(Monthly)(a) == points[i].fullDate && Keying(Monthly)(b) == points[j].fullDate
      ensures Before(YearMonthOf(a.date), YearMonthOf(b.date))
    {
      var x := SortedIndex(activities, a);
      var y := SortedIndex(activities, b);
      assert points[i].fullDate == bs[i].key && points[j].fullDate == bs[j].key;
    }
  }

  // ----- Summary statistics -----

  /** `avgSteps`, `maxSteps`, `minSteps` and `currentSteps` of the view's summary. */
  datatype Summary = Summary(avgSteps: int, maxSteps: int, minSteps: int, currentSteps: int)

  /** `Math.max(...xs)` of a non-empty series. */
  function Max(xs: seq<int>): (m: int)
    requires xs != []
    ensures m in xs && forall i :: 0 <= i < |xs| ==> xs[i] <= m
  {
    if |xs| == 1 then xs[0]
    else
      var m := Max(xs[..|xs| - 1]);
      assert xs == xs[..|xs| - 1] + [xs[|xs| - 1]];
      if xs[|xs| - 1] > m then xs[|xs| - 1] else m
  }

  /** `Math.min(...xs)` of a non-empty series. */
  function Min(xs: seq<int>): (m: int)
    requires xs != []
    ensures m in xs && forall i :: 0 <= i < |xs| ==> m <= xs[i]
  {
    if |xs| == 1 then xs[0]
    else
      var m := Min(xs[..|xs| - 1]);
      assert xs == xs[..|xs| - 1] + [xs[|xs| - 1]];
      if xs[|xs| - 1] < m then xs[|xs| - 1] else m
  }

  /** A sum of `n` values each between `lo` and `hi` lies between `n * lo` and `n * hi`. */
  lemma {:induction false} SumWithin(xs: seq<int>, lo: int, hi: int)
    requires forall i :: 0 <= i < |xs| ==> lo <= xs[i] <= hi
    ensures lo * |xs| <= Sum(xs) <= hi * |xs|
  {
    if xs != [] {
      var n := |xs| - 1;
      SumWithin(xs[..n], lo, hi);
      assert lo * (n + 1) == lo * n + lo && hi * (n + 1) == hi * n + hi;
    }
  }

  /**
   * The summary reducer over a series of steps: absent for an empty series;
   * otherwise the last value, the rounded mean, and the extremes, with the
   * mean between the extremes.
   */
  function Summarize(stepsData: seq<int>): (r: Option<Summary>)
    ensures r.None? <==> stepsData == []
    ensures r.Some? ==>
      r.value.currentSteps == stepsData[|stepsData| - 1] &&
      r.value.minSteps <= r.value.avgSteps <= r.value.maxSteps &&
      r.value.maxSteps in stepsData && r.value.minSteps in stepsData &&
      (forall i :: 0 <= i < |stepsData| ==> r.value.minSteps <= stepsData[i] <= r.value.maxSteps)
    ensures r.Some? ==>
      r.value.avgSteps as real - 0.5 <= Sum(stepsData) as real / |stepsData| as real < r.value.avgSteps as real + 0.5
  {
    if |stepsData| == 0 then None
    else
      var maxSteps, minSteps := Max(stepsData), Min(stepsData);
      SumWithin(stepsData, minSteps, maxSteps);
      MeanWithin(Sum(stepsData), |stepsData|, minSteps, maxSteps);
      var avgSteps := MathRound(Sum(stepsData) as real / |stepsData| as real);
      Some(Summary(avgSteps, maxSteps, minSteps, stepsData[|stepsData| - 1]))
  }

  /**
   * The `stats` of the chart data, summarized from its steps series
   * `chartData.map(d => d.steps)`: absent exactly when there are no points;
   * otherwise the last point's steps, and extremes that are steps of some
   * point and bound every point's steps and the rounded mean.
   */
  function Stats(chartData: seq<Point>): (r: Option<Summary>)
    ensures r.None? <==> chartData == []
    ensures r.Some? ==> r.value.currentSteps == chartData[|chartData| - 1].steps
    ensures r.Some? ==> r.value.minSteps <= r.value.avgSteps <= r.value.maxSteps
    ensures r.Some? ==> forall i :: 0 <= i < |chartData| ==> r.value.minSteps <= chartData[i].steps <= r.value.maxSteps
    ensures r.Some? ==> exists i :: 0 <= i < |chartData| && r.value.maxSteps == chartData[i].steps
    ensures r.Some? ==> exists i :: 0 <= i < |chartData| && r.value.minSteps == chartData[i].steps
  {
    Summarize(Project(chartData, (d: Point) => d.steps))
  }

  /** The view has no summary exactly when it has no records, in every period mode. */
  lemma NoStatsIff(activities: seq<Activity>, range: TimeRange)
    ensures Stats(ChartPoints(activities, range)).None? <==> activities == []
  {
    ChartEmptyIff(activities, range);
  }

  /** The series 1000, 2000, 3000, 4000 summarises to current 4000, mean 2500, max 4000, min 1000. */
  lemma SummarizeExample()
    ensures Summarize([1000, 2000, 3000, 4000]) == Some(Summary(2500, 4000, 1000, 4000))
  {
    var xs := [1000, 2000, 3000, 4000];
    assert xs[..3] == [1000, 2000, 3000];
    assert xs[..3][..2] == [1000, 2000];
    assert xs[..3][..2][..1] == [1000];
    assert [1000][..0] == [];
    assert Sum([1000]) == 1000;
    assert Sum([1000, 2000]) == 3000;
    assert Sum([1000, 2000, 3000]) == 6000;
    assert Sum(xs) == 10000;
    assert Max(xs) == 4000;
    assert Min(xs) == 1000;
    assert MathRound(10000.0 / 4.0) == 2500;
  }
}
