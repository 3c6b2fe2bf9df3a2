/**
 * The activity-trend charts: every record becomes one chart point, in date
 * order, with its values copied and its distance converted to kilometres.
 */
module ActivityCharts {
  import opened Activities

  /**
   * One chart point. `date` is the record's day; the view shows it as a
   * day/month label.
   */
  datatype ChartPoint = ChartPoint(date: int, steps: int, calories: int, standingHours: int, distance: real)

  /** What the component shows: a placeholder when there are no records, the charts otherwise. */
  datatype View = Placeholder | Charts(points: seq<ChartPoint>)

  /** One record as a chart point: kilometres are `distance_meters / 1000`, not rounded. */
  function PointOf(a: Activity): (p: ChartPoint)
    ensures p.date == a.date && p.steps == a.steps && p.calories == a.caloriesBurned
    ensures p.standingHours == a.standingHours && p.distance * 1000.0 == a.distanceMeters as real
  {
    ChartPoint(a.date, a.steps, a.caloriesBurned, a.standingHours, a.distanceMeters as real / 1000.0)
  }

  /**
   * `activities.slice().sort(byDate).map(...)`: one point per record, no
   * grouping and no truncation, in ascending date order, each point the
   * image of the record at its place in the sorted copy.
   */
  function ChartData(activities: seq<Activity>): (points: seq<ChartPoint>)
    ensures |points| == |activities|
    ensures forall i :: 0 <= i < |points| ==> points[i] == PointOf(SortByDate(activities)[i])
    ensures forall i, j :: 0 <= i < j < |points| ==> points[i].date <= points[j].date
  {
    var sorted := SortByDate(activities);
    seq(|sorted|, i requires 0 <= i < |sorted| => PointOf(sorted[i]))
  }

  /** Each record of a sequence also appears in any permutation of it. */
  lemma InPermutation(s: seq<Activity>, t: seq<Activity>, i: nat)
    requires multiset(s) == multiset(t) && i < |s|
    ensures exists j :: 0 <= j < |t| && t[j] == s[i]
  {
    assert s[i] in multiset(s);
    assert s[i] in t;
  }

  /**
   * Every record has its point in the chart, with its steps, calories and
   * standing hours unchanged and its distance in kilometres, and every
   * point is some record's.
   */
  lemma ChartCoversRecords(activities: seq<Activity>)
    ensures forall i :: 0 <= i < |activities| ==>
      exists j :: 0 <= j < |ChartData(activities)| && ChartData(activities)[j] == PointOf(activities[i])
    ensures forall i :: 0 <= i < |ChartData(activities)| ==>
      exists j :: 0 <= j < |activities| && ChartData(activities)[i] == PointOf(activities[j])
  {
    var sorted, points := SortByDate(activities), ChartData(activities);
    forall i | 0 <= i < |activities|
      ensures exists j :: 0 <= j < |points| && points[j] == PointOf(activities[i])
    {
      InPermutation(activities, sorted, i);
      var j :| 0 <= j < |sorted| && sorted[j] == activities[i];
      assert points[j] == PointOf(activities[i]);
    }
    forall i | 0 <= i < |points|
      ensures exists j :: 0 <= j < |activities| && points[i] == PointOf(activities[j])
    {
      InPermutation(sorted, activities, i);
      var j :| 0 <= j < |activities| && activities[j] == sorted[i];
      assert points[i] == PointOf(activities[j]);
    }
  }

  /** The component's output: the placeholder exactly when there are no records, otherwise the charts of all records. */
  function Render(activities: seq<Activity>): (v: View)
    ensures v.Placeholder? <==> activities == []
    ensures v.Charts? ==> |v.points| == |activities| && v.points == ChartData(activities)
  {
    if |activities| == 0 then Placeholder else Charts(ChartData(activities))
  }
}
