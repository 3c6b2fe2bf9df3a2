/**
 * The dashboard's helpers: goal progress of the most recent activity record,
 * the colour classes of training levels and muscle groups, the five-entry
 * activity history, and the state resets on logout and on closing a workout.
 */
module Dashboard {
  import opened Activities
  import opened Options

  /** The logged-in user and the three daily goals. */
  datatype User = User(id: int, username: string, level: string,
                       dailyStepGoal: int, dailyCalorieGoal: int, dailyStandingGoal: int)

  datatype WorkoutPlan = WorkoutPlan(id: int, name: string, level: string, muscleGroup: string)

  datatype Exercise = Exercise(id: int, name: string, muscleGroup: string, difficulty: string)

  // ----- Goal progress -----

  /**
   * The JavaScript numbers a progress value can take: a finite number, or
   * the `NaN` and `-Infinity` that a division by a zero goal produces
   * (`+Infinity` is capped to 100 and never comes out).
   */
  datatype Number = Finite(value: real) | NotANumber | MinusInfinity

  /**
   * `calculateProgress`: the percentage of the goal reached, capped at 100.
   * With a zero goal the division gives `Infinity` (capped to 100) for a
   * positive value, `NaN` for zero and `-Infinity` for a negative value.
   */
  function CalculateProgress(current: real, goal: real): (p: Number)
    ensures goal != 0.0 ==> p.Finite? && p.value <= 100.0
    ensures goal != 0.0 && p.value < 100.0 ==> p.value * goal == current * 100.0
    ensures goal != 0.0 && current / goal * 100.0 < 100.0 ==> p == Finite(current / goal * 100.0)
    ensures goal != 0.0 && current / goal * 100.0 >= 100.0 ==> p == Finite(100.0)
    ensures goal > 0.0 ==> (p == Finite(100.0) <==> current >= goal)
    ensures goal == 0.0 ==> (p == Finite(100.0) <==> current > 0.0)
    ensures goal == 0.0 ==> (p == NotANumber <==> current == 0.0)
    ensures goal == 0.0 ==> (p == MinusInfinity <==> current < 0.0)
  {
    if goal == 0.0 then
      if current > 0.0 then Finite(100.0) else if current == 0.0 then NotANumber else MinusInfinity
    else
      var ratio := current / goal * 100.0;
      RatioBelowHundred(current, goal);
      Finite(if ratio < 100.0 then ratio else 100.0)
  }

  /** Against a positive goal the percentage is below 100 exactly when the goal is not reached. */
  lemma RatioBelowHundred(current: real, goal: real)
    ensures goal > 0.0 ==> (current / goal * 100.0 < 100.0 <==> current < goal)
  {
    if goal > 0.0 {
      assert current / goal * goal == current;
    }
  }

  /** The three progress bars' values. */
  datatype Progress = Progress(steps: Number, calories: Number, standing: Number)

  /**
   * The progress of `activities[0]` (the first record, the most recent one
   * as the records are listed) against the user's goals; all zero when there
   * is no record.
   */
  function TodayProgress(user: User, activities: seq<Activity>): (p: Progress)
    ensures activities == [] ==> p == Progress(Finite(0.0), Finite(0.0), Finite(0.0))
    ensures activities != [] ==>
      p.steps == CalculateProgress(activities[0].steps as real, user.dailyStepGoal as real) &&
      p.calories == CalculateProgress(activities[0].caloriesBurned as real, user.dailyCalorieGoal as real) &&
      p.standing == CalculateProgress(activities[0].standingHours as real, user.dailyStandingGoal as real)
  {
    if activities == [] then Progress(Finite(0.0), Finite(0.0), Finite(0.0))
    else
      var today := activities[0];
      Progress(CalculateProgress(today.steps as real, user.dailyStepGoal as real),
               CalculateProgress(today.caloriesBurned as real, user.dailyCalorieGoal as real),
               CalculateProgress(today.standingHours as real, user.dailyStandingGoal as real))
  }

  /**
   * With positive goals every bar shows at most 100, and a bar is full
   * exactly when the latest record reaches that goal.
   */
  lemma TodayProgressFull(user: User, activities: seq<Activity>)
    requires activities != []
    requires user.dailyStepGoal > 0 && user.dailyCalorieGoal > 0 && user.dailyStandingGoal > 0
    ensures var p := TodayProgress(user, activities);
      p.steps.Finite? && p.calories.Finite? && p.standing.Finite? &&
      p.steps.value <= 100.0 && p.calories.value <= 100.0 && p.standing.value <= 100.0
    ensures TodayProgress(user, activities).steps == Finite(100.0) <==> activities[0].steps >= user.dailyStepGoal
    ensures TodayProgress(user, activities).calories == Finite(100.0) <==> activities[0].caloriesBurned >= user.dailyCalorieGoal
    ensures TodayProgress(user, activities).standing == Finite(100.0) <==> activities[0].standingHours >= user.dailyStandingGoal
  {
  }

  // ----- Colour classes -----

  const GrayClass: string := "bg-gray-100 text-gray-800"

  /** `getLevelColor`: green, yellow and red for the three levels, gray for anything else. */
  function LevelColor(level: string): (c: string)
    ensures level == "principiante" ==> c == "bg-green-100 text-green-800"
    ensures level == "intermedio" ==> c == "bg-yellow-100 text-yellow-800"
    ensures level == "avanzato" ==> c == "bg-red-100 text-red-800"
    ensures c == GrayClass <==> level !in {"principiante", "intermedio", "avanzato"}
  {
    match level
    case "principiante" => "bg-green-100 text-green-800"
    case "intermedio" => "bg-yellow-100 text-yellow-800"
    case "avanzato" => "bg-red-100 text-red-800"
    case _ => GrayClass
  }

  /** The three levels get three different colours. */
  lemma LevelColorsDistinct()
    ensures LevelColor("principiante") != LevelColor("intermedio")
    ensures LevelColor("intermedio") != LevelColor("avanzato")
    ensures LevelColor("principiante") != LevelColor("avanzato")
  {
  }

  /** The colour table of `getMuscleGroupColor`. */
  const MuscleGroupColors: map<string, string> := map[
    "braccia" := "bg-blue-100 text-blue-800",
    "gambe" := "bg-purple-100 text-purple-800",
    "addominali" := "bg-orange-100 text-orange-800",
    "petto" := "bg-red-100 text-red-800",
    "schiena" := "bg-indigo-100 text-indigo-800",
    "cardio" := "bg-teal-100 text-teal-800"]

  /**
   * The names every object literal inherits from `Object.prototype` in a
   * browser; looking one of them up in the colour table finds a function, or
   * for `__proto__` the prototype object itself, not a colour.
   */
  const InheritedNames: set<string> := {"constructor", "hasOwnProperty", "isPrototypeOf",
    "propertyIsEnumerable", "toLocaleString", "toString", "valueOf",
    "__proto__", "__defineGetter__", "__defineSetter__", "__lookupGetter__", "__lookupSetter__"}

  /** What `getMuscleGroupColor` can hand back: a class text, or an inherited member. */
  datatype ColorValue = ClassText(text: string) | Inherited(name: string)

  /**
   * `colors[group] || gray` exactly as written: an own entry of the table
   * if it is a non-empty text, an inherited member (a function or an object,
   * truthy either way) if the group names one, gray otherwise.
   */
  function MuscleGroupColorAsWritten(group: string): (c: ColorValue)
    ensures group in MuscleGroupColors ==> c == ClassText(MuscleGroupColors[group])
    ensures c.Inherited? <==> group !in MuscleGroupColors && group in InheritedNames
  {
    if group in MuscleGroupColors then
      if MuscleGroupColors[group] != "" then ClassText(MuscleGroupColors[group]) else ClassText(GrayClass)
    else if group in InheritedNames then Inherited(group)
    else ClassText(GrayClass)
  }

  /** The group "toString" gets the inherited `toString` function, and "__proto__" the prototype object, instead of a colour class. */
  lemma InheritedGroupNotAColor()
    ensures MuscleGroupColorAsWritten("toString") == Inherited("toString")
    ensures MuscleGroupColorAsWritten("__proto__") == Inherited("__proto__")
  {
    assert "toString" !in MuscleGroupColors && "__proto__" !in MuscleGroupColors;
  }

  /**
   * `getMuscleGroupColor` as intended: the table's colour of a known group,
   * gray for any other name, inherited ones included.
   */
  function MuscleGroupColor(group: string): (c: string)
    ensures group in MuscleGroupColors ==> c == MuscleGroupColors[group]
    ensures c == GrayClass <==> group !in MuscleGroupColors
  {
    if group in MuscleGroupColors && MuscleGroupColors[group] != "" then MuscleGroupColors[group] else GrayClass
  }

  /** Away from the inherited names the code as written and the intended lookup agree. */
  lemma MuscleGroupColorAgrees(group: string)
    requires group !in InheritedNames
    ensures MuscleGroupColorAsWritten(group) == ClassText(MuscleGroupColor(group))
  {
  }

  // ----- Activity history -----

  /** Number of entries in the activity history. */
  const HistoryLength: nat := 5

  /** `activities.slice(0, 5)`: the first five records (all of them when fewer), in their order. */
  function History(activities: seq<Activity>): (h: seq<Activity>)
    ensures |h| == if |activities| < HistoryLength then |activities| else HistoryLength
    ensures h <= activities
  {
    if |activities| < HistoryLength then activities else activities[..HistoryLength]
  }

  // ----- Component state -----

  /** The dashboard's state variables (`useState`). */
  class DashboardState {
    var user: Option<User>
    var savedUser: Option<User>
    var activities: seq<Activity>
    var workoutPlans: seq<WorkoutPlan>
    var selectedWorkout: Option<WorkoutPlan>
    var workoutExercises: seq<Exercise>
    var loading: bool
    var error: Option<string>
    var showCharts: bool
    var showStepsAnalytics: bool
    var loadingExercises: bool

    /**
     * The state of a freshly mounted dashboard: the `useState` initial values,
     * with `saved` the user that browser storage holds from an earlier session.
     */
    constructor (saved: Option<User>)
      ensures user == None && savedUser == saved && activities == [] && workoutPlans == []
      ensures selectedWorkout == None && workoutExercises == [] && loading && error == None
      ensures !showCharts && !showStepsAnalytics && !loadingExercises
    {
      user, savedUser := None, saved;
      activities, workoutPlans := [], [];
      selectedWorkout, workoutExercises := None, [];
      loading, error := true, None;
      showCharts, showStepsAnalytics, loadingExercises := false, false, false;
    }

    /**
     * The part of `loadUserData` that runs before its first `await`: loading
     * starts and any earlier error is cleared. The fetch itself, and what it
     * later sets, is not modelled.
     */
    method StartLoading()
      modifies this
      ensures loading && error == None
      ensures user == old(user) && savedUser == old(savedUser)
      ensures activities == old(activities) && workoutPlans == old(workoutPlans)
      ensures selectedWorkout == old(selectedWorkout) && workoutExercises == old(workoutExercises)
      ensures showCharts == old(showCharts) && showStepsAnalytics == old(showStepsAnalytics)
      ensures loadingExercises == old(loadingExercises)
    {
      loading := true;
      error := None;
    }

    /**
     * The mount effect: a saved user becomes the logged-in user and its data
     * starts loading; with none saved, loading stops.
     */
    method RestoreSession()
      modifies this
      ensures savedUser.Some? ==> user == savedUser && loading && error == None
      ensures savedUser.None? ==> user == old(user) && !loading && error == old(error)
      ensures savedUser == old(savedUser) && activities == old(activities) && workoutPlans == old(workoutPlans)
      ensures selectedWorkout == old(selectedWorkout) && workoutExercises == old(workoutExercises)
      ensures showCharts == old(showCharts) && showStepsAnalytics == old(showStepsAnalytics)
      ensures loadingExercises == old(loadingExercises)
    {
      if savedUser.Some? {
        user := savedUser;
        StartLoading();
      } else {
        loading := false;
      }
    }

    /**
     * `handleLogin`: the user is logged in and saved for later sessions, and
     * their data starts loading.
     */
    method HandleLogin(u: User)
      modifies this
      ensures user == Some(u) && savedUser == Some(u)
      ensures loading && error == None
      ensures activities == old(activities) && workoutPlans == old(workoutPlans)
      ensures selectedWorkout == old(selectedWorkout) && workoutExercises == old(workoutExercises)
      ensures showCharts == old(showCharts) && showStepsAnalytics == old(showStepsAnalytics)
      ensures loadingExercises == old(loadingExercises)
    {
      user := Some(u);
      savedUser := Some(u);
      StartLoading();
    }

    /**
     * `handleLogout`: no user, no activities, no workout plans, and the
     * saved user removed; nothing else changes.
     */
    method HandleLogout()
      modifies this
      ensures user == None && savedUser == None && activities == [] && workoutPlans == []
      ensures selectedWorkout == old(selectedWorkout) && workoutExercises == old(workoutExercises)
      ensures loading == old(loading) && error == old(error)
      ensures showCharts == old(showCharts) && showStepsAnalytics == old(showStepsAnalytics)
      ensures loadingExercises == old(loadingExercises)
    {
      user := None;
      activities := [];
      workoutPlans := [];
      savedUser := None;
    }

    /** `closeWorkoutDetail`: no selected workout and no exercises; nothing else changes. */
    method CloseWorkoutDetail()
      modifies this
      ensures selectedWorkout == None && workoutExercises == []
      ensures user == old(user) && savedUser == old(savedUser)
      ensures activities == old(activities) && workoutPlans == old(workoutPlans)
      ensures loading == old(loading) && error == old(error)
      ensures showCharts == old(showCharts) && showStepsAnalytics == old(showStepsAnalytics)
      ensures loadingExercises == old(loadingExercises)
    {
      selectedWorkout := None;
      workoutExercises := [];
    }
  }
}
