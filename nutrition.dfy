/**
 * The nutrition service: the daily summary adds up the day's logs, in total
 * and per meal, and a log may be changed or deleted only by its owner.
 * Amounts are whole numbers and the repository is a map from log id to log.
 */
module Nutrition {
  import opened Wrappers

  /** A log row; `None` is a missing amount or one `parseFloat` cannot read. */
  datatype NutritionLog = NutritionLog(
    userId: string,
    mealType: string,
    foodName: string,
    calories: Option<int>,
    proteinG: Option<int>,
    carbsG: Option<int>,
    fatG: Option<int>)

  datatype Amounts = Amounts(calories: int, proteinG: int, carbsG: int, fatG: int)

  /** One meal's entry of `meal_breakdown`. */
  datatype MealTotals = MealTotals(amounts: Amounts, count: int)

  datatype Summary = Summary(totals: Amounts, mealBreakdown: map<string, MealTotals>)

  const MEAL_TYPES: set<string> := {"breakfast", "lunch", "dinner", "snack"}

  const ZERO := Amounts(0, 0, 0, 0)

  /** `parseFloat(x) || 0`. */
  function OrZero(x: Option<int>): int {
    if x.Some? then x.value else 0
  }

  function Plus(a: Amounts, b: Amounts): Amounts {
    Amounts(a.calories + b.calories, a.proteinG + b.proteinG, a.carbsG + b.carbsG, a.fatG + b.fatG)
  }

  /** What one log adds. */
  function AmountsOf(log: NutritionLog): Amounts {
    Amounts(OrZero(log.calories), OrZero(log.proteinG), OrZero(log.carbsG), OrZero(log.fatG))
  }

  /** The sum of every log's amounts: nothing for no logs, a single log's own amounts for one. */
  function Total(logs: seq<NutritionLog>): (r: Amounts)
    ensures logs == [] ==> r == ZERO
    ensures |logs| == 1 ==> r == AmountsOf(logs[0])
  {
    if logs == [] then ZERO else Plus(Total(logs[..|logs| - 1]), AmountsOf(logs[|logs| - 1]))
  }

  /** The sums and the number of the logs of meal `meal`. */
  function MealTotal(logs: seq<NutritionLog>, meal: string): (r: MealTotals)
    ensures logs == [] ==> r == MealTotals(ZERO, 0)
    ensures |logs| == 1 ==>
              r == if logs[0].mealType == meal then MealTotals(AmountsOf(logs[0]), 1) else MealTotals(ZERO, 0)
  {
    if logs == [] then MealTotals(ZERO, 0)
    else
      var before := MealTotal(logs[..|logs| - 1], meal);
      var last := logs[|logs| - 1];
      if last.mealType == meal then MealTotals(Plus(before.amounts, AmountsOf(last)), before.count + 1) else before
  }

  /** The logs of meal `meal`, in order. */
  function OfMeal(logs: seq<NutritionLog>, meal: string): (r: seq<NutritionLog>)
    ensures forall i :: 0 <= i < |r| ==> r[i].mealType == meal
    ensures |r| <= |logs|
  {
    if logs == [] then []
    else
      var before := OfMeal(logs[..|logs| - 1], meal);
      if logs[|logs| - 1].mealType == meal then before + [logs[|logs| - 1]] else before
  }

  /** A meal's entry holds the number of that meal's logs and the sum of their amounts. */
  lemma {:induction false} MealTotalIsTotalOfMeal(logs: seq<NutritionLog>, meal: string)
    ensures MealTotal(logs, meal) == MealTotals(Total(OfMeal(logs, meal)), |OfMeal(logs, meal)|)
  {
    if logs != [] {
      var init := logs[..|logs| - 1];
      MealTotalIsTotalOfMeal(init, meal);
      var r := OfMeal(logs, meal);
      if logs[|logs| - 1].mealType == meal {
        assert r[..|r| - 1] == OfMeal(init, meal);
      }
    }
  }

  /** One more log: the totals gain its amounts. */
  lemma TotalStep(logs: seq<NutritionLog>, i: int)
    requires 0 <= i < |logs|
    ensures Total(logs[..i + 1]) == Plus(Total(logs[..i]), AmountsOf(logs[i]))
  {
    assert logs[..i + 1][..i] == logs[..i];
  }

  /** One more log: its own meal gains its amounts and one in count; every other meal stays. */
  lemma MealStep(logs: seq<NutritionLog>, i: int, meal: string)
    requires 0 <= i < |logs|
    ensures MealTotal(logs[..i + 1], meal) ==
              if logs[i].mealType == meal then
                MealTotals(Plus(MealTotal(logs[..i], meal).amounts, AmountsOf(logs[i])), MealTotal(logs[..i], meal).count + 1)
              else MealTotal(logs[..i], meal)
  {
    assert logs[..i + 1][..i] == logs[..i];
  }

  /** The four meal entries hold the meal totals of `logs`. */
  predicate BreakdownOf(breakdown: map<string, MealTotals>, logs: seq<NutritionLog>) {
    && "breakfast" in breakdown && "lunch" in breakdown && "dinner" in breakdown && "snack" in breakdown
    && breakdown["breakfast"] == MealTotal(logs, "breakfast")
    && breakdown["lunch"] == MealTotal(logs, "lunch")
    && breakdown["dinner"] == MealTotal(logs, "dinner")
    && breakdown["snack"] == MealTotal(logs, "snack")
  }

  /** Adding a log to the entry of its meal type keeps the breakdown exact. */
  lemma KnownMealStep(before: map<string, MealTotals>, logs: seq<NutritionLog>, i: int)
    requires 0 <= i < |logs| && logs[i].mealType in before
    requires BreakdownOf(before, logs[..i])
    ensures var entry := before[logs[i].mealType];
            BreakdownOf(before[logs[i].mealType := MealTotals(Plus(entry.amounts, AmountsOf(logs[i])), entry.count + 1)],
                        logs[..i + 1])
  {
    var entry := before[logs[i].mealType];
    MealStep(logs, i, "breakfast");
    MealStep(logs, i, "lunch");
    MealStep(logs, i, "dinner");
    MealStep(logs, i, "snack");
  }

  /** A log of an unknown meal type leaves the breakdown exact as it is. */
  lemma UnknownMealStep(before: map<string, MealTotals>, logs: seq<NutritionLog>, i: int)
    requires 0 <= i < |logs| && logs[i].mealType !in before
    requires BreakdownOf(before, logs[..i])
    ensures BreakdownOf(before, logs[..i + 1])
  {
    MealStep(logs, i, "breakfast");
    MealStep(logs, i, "lunch");
    MealStep(logs, i, "dinner");
    MealStep(logs, i, "snack");
  }

  /** The four zeroed entries the summary starts with: the breakdown of no logs. */
  method ZeroedBreakdown() returns (breakdown: map<string, MealTotals>)
    ensures breakdown.Keys == MEAL_TYPES && BreakdownOf(breakdown, [])
  {
    var zeroed := MealTotals(ZERO, 0);
    breakdown := map["breakfast" := zeroed, "lunch" := zeroed, "dinner" := zeroed, "snack" := zeroed];
  }

  /** Each of the four meals' entries is that meal's total. */
  lemma BreakdownMeaning(breakdown: map<string, MealTotals>, logs: seq<NutritionLog>)
    requires BreakdownOf(breakdown, logs)
    ensures forall meal :: meal in MEAL_TYPES ==> meal in breakdown && breakdown[meal] == MealTotal(logs, meal)
  {
  }

  /** One turn of the loop for the totals: log `i` adds its amounts. */
  method AddToTotals(logs: seq<NutritionLog>, i: int, totals: Amounts) returns (totals': Amounts)
    requires 0 <= i < |logs| && totals == Total(logs[..i])
    ensures totals' == Total(logs[..i + 1])
  {
    TotalStep(logs, i);
    totals' := Plus(totals, AmountsOf(logs[i]));
  }

  /** One turn of the loop for the breakdown: log `i` joins its meal's entry when its meal type has one. */
  method AddToBreakdown(logs: seq<NutritionLog>, i: int, breakdown: map<string, MealTotals>)
    returns (breakdown': map<string, MealTotals>)
    requires 0 <= i < |logs| && BreakdownOf(breakdown, logs[..i])
    ensures breakdown'.Keys == breakdown.Keys && BreakdownOf(breakdown', logs[..i + 1])
  {
    var log := logs[i];
    if log.mealType in breakdown {
      KnownMealStep(breakdown, logs, i);
      var entry := breakdown[log.mealType];
      breakdown' := breakdown[log.mealType := MealTotals(Plus(entry.amounts, AmountsOf(log)), entry.count + 1)];
    } else {
      UnknownMealStep(breakdown, logs, i);
      breakdown' := breakdown;
    }
  }

  /** `getDailyNutritionLogs`' loop over the day's logs, before rounding. */
  method Summarize(logs: seq<NutritionLog>) returns (summary: Summary)
    ensures summary.totals == Total(logs)
    ensures summary.mealBreakdown.Keys == MEAL_TYPES
    ensures forall meal :: meal in MEAL_TYPES ==> summary.mealBreakdown[meal] == MealTotal(logs, meal)
  {
    var totals := ZERO;
    var breakdown0 := ZeroedBreakdown();
    var breakdown := breakdown0;
    var i := 0;
    assert logs[..i] == [];
    while i < |logs|
      invariant 0 <= i <= |logs|
      invariant totals == Total(logs[..i])
      invariant breakdown.Keys == breakdown0.Keys && BreakdownOf(breakdown, logs[..i])
    {
      totals := AddToTotals(logs, i, totals);
      breakdown := AddToBreakdown(logs, i, breakdown);
      i := i + 1;
    }
    assert logs[..i] == logs;
    BreakdownMeaning(breakdown, logs);
    summary := Summary(totals, breakdown);
  }

  /** With no logs, all four meals are present and zero. */
  lemma EmptyDay(meal: string)
    ensures Total([]) == ZERO
    ensures MealTotal([], meal) == MealTotals(ZERO, 0)
  {
  }

  /** A log whose meal type is not one of the four adds to the totals and to no meal. */
  lemma UnknownMealOnlyInTotals(logs: seq<NutritionLog>, log: NutritionLog, meal: string)
    requires log.mealType !in MEAL_TYPES && meal in MEAL_TYPES
    ensures Total(logs + [log]) == Plus(Total(logs), AmountsOf(log))
    ensures MealTotal(logs + [log], meal) == MealTotal(logs, meal)
  {
    assert (logs + [log])[..|logs|] == logs;
  }

  /** One of the four meal types of the breakdown. */
  predicate KnownMeal(meal: string) {
    meal == "breakfast" || meal == "lunch" || meal == "dinner" || meal == "snack"
  }

  predicate AllMealsKnown(logs: seq<NutritionLog>) {
    forall i :: 0 <= i < |logs| ==> KnownMeal(logs[i].mealType)
  }

  function Sum4(b: MealTotals, l: MealTotals, d: MealTotals, s: MealTotals): MealTotals {
    MealTotals(Plus(Plus(Plus(b.amounts, l.amounts), d.amounts), s.amounts), b.count + l.count + d.count + s.count)
  }

  function SumOfMeals(logs: seq<NutritionLog>): MealTotals {
    Sum4(MealTotal(logs, "breakfast"), MealTotal(logs, "lunch"), MealTotal(logs, "dinner"), MealTotal(logs, "snack"))
  }

  function Grown(t: MealTotals, a: Amounts): MealTotals {
    MealTotals(Plus(t.amounts, a), t.count + 1)
  }

  /** Growing any one of the four entries by `a` grows their sum by `a`. */
  lemma SumGrows(b: MealTotals, l: MealTotals, d: MealTotals, s: MealTotals, a: Amounts)
    ensures Sum4(Grown(b, a), l, d, s) == Grown(Sum4(b, l, d, s), a)
    ensures Sum4(b, Grown(l, a), d, s) == Grown(Sum4(b, l, d, s), a)
    ensures Sum4(b, l, Grown(d, a), s) == Grown(Sum4(b, l, d, s), a)
    ensures Sum4(b, l, d, Grown(s, a)) == Grown(Sum4(b, l, d, s), a)
  {
  }

  /** With no logs, the four meals sum to zero. */
  lemma NoMeals()
    ensures SumOfMeals([]) == MealTotals(ZERO, 0)
  {
    var none: seq<NutritionLog> := [];
    var z := MealTotals(ZERO, 0);
    assert MealTotal(none, "breakfast") == z && MealTotal(none, "lunch") == z;
    assert MealTotal(none, "dinner") == z && MealTotal(none, "snack") == z;
    assert Plus(ZERO, ZERO) == ZERO;
  }

  /** The last log, of a known meal type, grows the sum of the meals by its amounts. */
  lemma LastMealGrowsSum(logs: seq<NutritionLog>)
    requires logs != [] && KnownMeal(logs[|logs| - 1].mealType)
    ensures SumOfMeals(logs) == Grown(SumOfMeals(logs[..|logs| - 1]), AmountsOf(logs[|logs| - 1]))
  {
    var init := logs[..|logs| - 1];
    var a := AmountsOf(logs[|logs| - 1]);
    var b, l, d, s := MealTotal(init, "breakfast"), MealTotal(init, "lunch"), MealTotal(init, "dinner"), MealTotal(init, "snack");
    SumGrows(b, l, d, s, a);
    var m := logs[|logs| - 1].mealType;
    if m == "breakfast" {
      assert SumOfMeals(logs) == Sum4(Grown(b, a), l, d, s);
    } else if m == "lunch" {
      assert SumOfMeals(logs) == Sum4(b, Grown(l, a), d, s);
    } else if m == "dinner" {
      assert SumOfMeals(logs) == Sum4(b, l, Grown(d, a), s);
    } else {
      assert SumOfMeals(logs) == Sum4(b, l, d, Grown(s, a));
    }
  }

  /** When every log has one of the four meal types, the meals add up to the totals and count every log. */
  lemma {:induction false} MealsAddUpToTotals(logs: seq<NutritionLog>)
    requires AllMealsKnown(logs)
    ensures SumOfMeals(logs) == MealTotals(Total(logs), |logs|)
  {
    if logs == [] {
      NoMeals();
    } else {
      var init := logs[..|logs| - 1];
      MealsAddUpToTotals(init);
      LastMealGrowsSum(logs);
    }
  }

  const NOT_OWNED := "Nutrition log not found or access denied"

  /** The columns an update sets; `None` leaves a column as it is. */
  datatype LogUpdate = LogUpdate(
    userId: Option<string>, mealType: Option<string>, foodName: Option<string>,
    calories: Option<Option<int>>, proteinG: Option<Option<int>>, carbsG: Option<Option<int>>, fatG: Option<Option<int>>)

  function Apply(log: NutritionLog, u: LogUpdate): NutritionLog {
    NutritionLog(u.userId.GetOr(log.userId), u.mealType.GetOr(log.mealType), u.foodName.GetOr(log.foodName),
                 u.calories.GetOr(log.calories), u.proteinG.GetOr(log.proteinG),
                 u.carbsG.GetOr(log.carbsG), u.fatG.GetOr(log.fatG))
  }

  /** The ownership guard shared by update and delete. */
  predicate Owns(store: map<string, NutritionLog>, logId: string, userId: string) {
    logId in store && store[logId].userId == userId
  }

  /** `updateNutritionLog`: refused unless the log exists and is the caller's; otherwise the columns are overwritten. */
  function UpdateNutritionLog(store: map<string, NutritionLog>, logId: string, userId: string, update: LogUpdate)
    : (r: Result<map<string, NutritionLog>, string>)
    ensures r.Failure? <==> !Owns(store, logId, userId)
    ensures r.Failure? ==> r.error == NOT_OWNED
    ensures r.Success? ==> r.value.Keys == store.Keys && r.value[logId] == Apply(store[logId], update)
    ensures r.Success? ==> forall id :: id in store && id != logId ==> r.value[id] == store[id]
  {
    if !Owns(store, logId, userId) then Failure(NOT_OWNED)
    else Success(store[logId := Apply(store[logId], update)])
  }

  /** `deleteNutritionLog`: refused unless the log exists and is the caller's; otherwise only that log goes. */
  function DeleteNutritionLog(store: map<string, NutritionLog>, logId: string, userId: string)
    : (r: Result<map<string, NutritionLog>, string>)
    ensures r.Failure? <==> !Owns(store, logId, userId)
    ensures r.Failure? ==> r.error == NOT_OWNED
    ensures r.Success? ==> r.value.Keys == store.Keys - {logId}
    ensures r.Success? ==> forall id :: id in r.value ==> r.value[id] == store[id]
  {
    if !Owns(store, logId, userId) then Failure(NOT_OWNED)
    else Success(store - {logId})
  }

  /** Another user's logs survive any update or delete by this user. */
  lemma OthersLogsUntouched(store: map<string, NutritionLog>, logId: string, userId: string, update: LogUpdate, id: string)
    requires id in store && store[id].userId != userId
    ensures UpdateNutritionLog(store, logId, userId, update).Success? ==>
              id in UpdateNutritionLog(store, logId, userId, update).value &&
              UpdateNutritionLog(store, logId, userId, update).value[id] == store[id]
    ensures DeleteNutritionLog(store, logId, userId).Success? ==>
              id in DeleteNutritionLog(store, logId, userId).value &&
              DeleteNutritionLog(store, logId, userId).value[id] == store[id]
  {
  }
}
