/**
 * Worked examples of the analytics view's fold: small inputs whose chart
 * is computed outright, and the general facts about one- and two-bucket
 * inputs they rest on.
 */
module AnalyticsExamples {
  import opened Activities
  import opened Calendar
  import opened StepAnalytics

  /** A record with the given date and steps and no other activity. */
  function StepsOn(date: int, steps: int): Activity
  {
    Activity(0, date, steps, 0, 0, 0)
  }

  /** A single record makes a single bucket holding just that record. */
  lemma SingleBucket(a: Activity, keyOf: Activity -> BucketKey)
    ensures Buckets([a], keyOf) == [Add(Empty(keyOf(a)), a)]
  {
    assert Buckets([], keyOf) == [];
    AppendNew([], a, keyOf);
    assert [] + [a] == [a];
  }

  /** A record with the key of the only bucket so far joins that bucket. */
  lemma JoinOnlyBucket(p: seq<Activity>, x: Activity, keyOf: Activity -> BucketKey, b: Accumulator)
    requires Buckets(p, keyOf) == [b] && b.key == keyOf(x)
    ensures Buckets(p + [x], keyOf) == [Add(b, x)]
  {
    AppendToExisting(p, x, keyOf, 0);
  }

  /** Two records with different keys make two buckets of one record each, in their order. */
  lemma TwoBuckets(a: Activity, b: Activity, keyOf: Activity -> BucketKey)
    requires keyOf(a) != keyOf(b)
    ensures Buckets([a, b], keyOf) == [Add(Empty(keyOf(a)), a), Add(Empty(keyOf(b)), b)]
  {
    SingleBucket(a, keyOf);
    AppendNew([a], b, keyOf);
    assert [a] + [b] == [a, b];
  }

  /** A bucket of a single record charts that record's own values under the bucket's key. */
  lemma SingleRecordAverage(key: BucketKey, a: Activity)
    ensures Average(Add(Empty(key), a)) == DailyPoint(a).(fullDate := key)
  {
    var b := Add(Empty(key), a);
    assert b.steps as real / 1.0 == a.steps as real;
    assert b.calories as real / 1.0 == a.caloriesBurned as real;
    assert b.standingHours as real / 1.0 == a.standingHours as real;
    assert b.distance / 1.0 == a.distanceMeters as real / 1000.0;
  }

  /** A bucket with steps and nothing else, whose steps divide evenly, charts exactly that mean. */
  lemma StepsOnlyAverage(key: BucketKey, mean: int, days: int)
    requires days >= 1
    ensures Average(Accumulator(key, mean * days, 0, 0, 0.0, days)) == Point(key, mean, 0, 0, 0.0)
  {
    var n := days as real;
    assert (mean * days) as real / n == mean as real;
    assert 0 as real / n == 0.0 && 0.0 / n == 0.0;
    assert MathRound(0.0) == 0;
    assert MathRound(0.0 * 100.0) == 0;
  }

  /** Three records under one key make one bucket holding all three. */
  lemma ThreeInOneBucket(a: Activity, b: Activity, c: Activity, keyOf: Activity -> BucketKey)
    requires keyOf(a) == keyOf(b) == keyOf(c)
    ensures Buckets([a, b, c], keyOf) == [Add(Add(Add(Empty(keyOf(a)), a), b), c)]
  {
    var b1 := Add(Empty(keyOf(a)), a);
    SingleBucket(a, keyOf);
    JoinOnlyBucket([a], b, keyOf, b1);
    assert [a] + [b] == [a, b];
    JoinOnlyBucket([a, b], c, keyOf, Add(b1, b));
    assert [a, b] + [c] == [a, b, c];
  }

  /** A record with steps only, alone in its bucket, charts its own steps. */
  lemma StepsOnlyPoint(key: BucketKey, date: int, steps: int)
    ensures Average(Add(Empty(key), StepsOn(date, steps))) == Point(key, steps, 0, 0, 0.0)
  {
    assert Add(Empty(key), StepsOn(date, steps)) == Accumulator(key, steps * 1, 0, 0, 0.0, 1);
    StepsOnlyAverage(key, steps, 1);
  }

  /**
   * Three records with steps only, in one bucket, whose steps add up to
   * three times `mean`, chart as one point with that mean.
   */
  lemma StepsOnlyMean(key: BucketKey, d1: int, d2: int, d3: int, s1: int, s2: int, s3: int, mean: int)
    requires s1 + s2 + s3 == 3 * mean
    ensures Averages([Add(Add(Add(Empty(key), StepsOn(d1, s1)), StepsOn(d2, s2)), StepsOn(d3, s3))]) ==
      [Point(key, mean, 0, 0, 0.0)]
  {
    var acc := Add(Add(Add(Empty(key), StepsOn(d1, s1)), StepsOn(d2, s2)), StepsOn(d3, s3));
    assert acc == Accumulator(key, mean * 3, 0, 0, 0.0, 3);
    StepsOnlyAverage(key, mean, 3);
  }

  /** Records already in date order chart, in weekly and monthly mode, as the averages of their own buckets. */
  lemma SortedChart(rs: seq<Activity>, range: TimeRange)
    requires range != Daily && SortedByDate(rs)
    ensures forall i :: 0 <= i < |Buckets(rs, Keying(range))| ==> Buckets(rs, Keying(range))[i].days >= 1
    ensures ChartPoints(rs, range) == Averages(Buckets(rs, Keying(range)))
  {
    SortedUnchanged(rs);
    BucketsNonEmpty(rs, Keying(range));
  }

  /** Two records in date order with different keys chart as two points, one per record, in that order. */
  lemma TwoBucketChart(a: Activity, b: Activity, range: TimeRange)
    requires range != Daily
    requires a.date <= b.date && KeyOf(range, a) != KeyOf(range, b)
    ensures ChartPoints([a, b], range) == Averages([Add(Empty(KeyOf(range, a)), a), Add(Empty(KeyOf(range, b)), b)])
  {
    SortedChart([a, b], range);
    TwoBuckets(a, b, Keying(range));
  }

  /** Three records with non-decreasing dates are in date order. */
  lemma SortedThree(a: Activity, b: Activity, c: Activity)
    requires a.date <= b.date <= c.date
    ensures SortedByDate([a, b, c])
  {
  }

  /** Three records in date order with one key chart as a single point averaging all three. */
  lemma OneBucketChart(a: Activity, b: Activity, c: Activity, range: TimeRange)
    requires range != Daily
    requires a.date <= b.date <= c.date
    requires KeyOf(range, a) == KeyOf(range, b) == KeyOf(range, c)
    ensures ChartPoints([a, b, c], range) == Averages([Add(Add(Add(Empty(KeyOf(range, a)), a), b), c)])
  {
    SortedThree(a, b, c);
    SortedChart([a, b, c], range);
    assert Keying(range)(a) == KeyOf(range, a) && Keying(range)(b) == KeyOf(range, b) && Keying(range)(c) == KeyOf(range, c);
    ThreeInOneBucket(a, b, c, Keying(range));
  }

  /** Two accumulators chart as their two averages. */
  lemma AveragesOfTwo(b1: Accumulator, b2: Accumulator)
    requires b1.days >= 1 && b2.days >= 1
    ensures Averages([b1, b2]) == [Average(b1), Average(b2)]
  {
  }

  /**
   * Two records with steps only, in date order and with different keys,
   * chart as two points carrying their own steps. A record `a` with
   * `a == StepsOn(a.date, a.steps)` is any record that has steps and nothing else.
   */
  lemma TwoStepsOnlyPoints(a: Activity, b: Activity, range: TimeRange)
    requires range != Daily && a.date <= b.date && KeyOf(range, a) != KeyOf(range, b)
    requires a == StepsOn(a.date, a.steps) && b == StepsOn(b.date, b.steps)
    ensures ChartPoints([a, b], range) ==
      [Point(KeyOf(range, a), a.steps, 0, 0, 0.0), Point(KeyOf(range, b), b.steps, 0, 0, 0.0)]
  {
    var ka, kb := KeyOf(range, a), KeyOf(range, b);
    TwoBucketChart(a, b, range);
    AveragesOfTwo(Add(Empty(ka), a), Add(Empty(kb), b));
    StepsOnlyPoint(ka, a.date, a.steps);
    StepsOnlyPoint(kb, b.date, b.steps);
  }

  /**
   * 2024-01-01 and 2024-01-08 are Mondays a week apart: in weekly mode
   * each record is a bucket of its own, filed under the Sunday before it
   * and charted with its own steps.
   */
  lemma TwoWeeksExample()
    ensures ChartPoints([StepsOn(Jan1st2024, 1000), StepsOn(Jan1st2024 + 7, 2000)], Weekly) ==
      [Point(Day(Jan1st2024 - 1), 1000, 0, 0, 0.0), Point(Day(Jan1st2024 + 6), 2000, 0, 0, 0.0)]
  {
    var a, b := StepsOn(Jan1st2024, 1000), StepsOn(Jan1st2024 + 7, 2000);
    January2024Weeks();
    assert KeyOf(Weekly, a) == Day(Jan1st2024 - 1) && KeyOf(Weekly, b) == Day(Jan1st2024 + 6);
    TwoStepsOnlyPoints(a, b, Weekly);
  }

  /** Every day of January 2024 falls in the monthly bucket "2024-1". */
  lemma JanuaryKey(a: Activity)
    requires Jan1st2024 <= a.date < Jan1st2024 + 31
    ensures KeyOf(Monthly, a) == Month("2024-1")
  {
    January2024Month(a.date);
    January2024Key();
  }

  /**
   * 2024-01-01, 02 and 03 with 1000, 2000 and 3000 steps chart, in monthly
   * mode, as one point keyed "2024-1" with the 2000-step average. The
   * records are parameters pinned by the precondition rather than literals
   * in the postcondition: on constant arguments the verifier evaluates the
   * sort, the fold and the month keys eagerly and exhausts its budget.
   */
  lemma ThreeJanuaryDaysExample(a: Activity, b: Activity, c: Activity)
    requires a == StepsOn(Jan1st2024, 1000) && b == StepsOn(Jan1st2024 + 1, 2000) && c == StepsOn(Jan1st2024 + 2, 3000)
    ensures ChartPoints([a, b, c], Monthly) == [Point(Month("2024-1"), 2000, 0, 0, 0.0)]
  {
    JanuaryKey(a);
    JanuaryKey(b);
    JanuaryKey(c);
    OneBucketChart(a, b, c, Monthly);
    StepsOnlyMean(Month("2024-1"), Jan1st2024, Jan1st2024 + 1, Jan1st2024 + 2, 1000, 2000, 3000, 2000);
  }
}
