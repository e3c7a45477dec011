/**
 * The records of models.h: the user profile (updated in place by the profile
 * operations), the food item and the daily log, with the defaults their
 * member initialisers give.
 */
module Models {
  import opened Wrappers
  import opened CppNumeric

  /** A snapshot of every field of a UserProfile. */
  datatype ProfileData = ProfileData(
    username: string,
    fullName: string,
    password: string,
    age: Int32,
    gender: string,
    heightCm: int,
    weightKg: real,
    activityLevel: string,
    caloriesTarget: real,
    proteinTarget: real,
    carbsTarget: real,
    fatTarget: real)

  /** A default-constructed UserProfile: empty strings and zero numbers. */
  const EmptyProfile := ProfileData("", "", "", 0, "", 0, 0.0, "", 0.0, 0.0, 0.0, 0.0)

  /**
   * The UserProfile record, which the profile operations take by reference
   * and update field by field. `heightCm` is unbounded: the truncating
   * conversion that fills it is modelled without the `int` range.
   */
  class UserProfile {
    var username: string
    var fullName: string
    var password: string
    var age: Int32
    var gender: string
    var heightCm: int
    var weightKg: real
    var activityLevel: string
    var caloriesTarget: real
    var proteinTarget: real
    var carbsTarget: real
    var fatTarget: real

    /** All fields at once. */
    function Value(): ProfileData
      reads this
    {
      ProfileData(username, fullName, password, age, gender, heightCm, weightKg,
                  activityLevel, caloriesTarget, proteinTarget, carbsTarget, fatTarget)
    }

    /** A profile with the member initialisers' defaults. */
    constructor ()
      ensures Value() == EmptyProfile
    {
      username, fullName, password := "", "", "";
      age, gender, heightCm, weightKg, activityLevel := 0, "", 0, 0.0, "";
      caloriesTarget, proteinTarget, carbsTarget, fatTarget := 0.0, 0.0, 0.0, 0.0;
    }
  }

  /** A food with its nutrients per serving of `servingSize` grams. */
  datatype FoodItem = FoodItem(
    name: string,
    calories: real,
    protein: real,
    carbs: real,
    fat: real,
    servingSize: real)

  /** A default-constructed FoodItem: zero nutrients per 100 grams. */
  const DefaultFoodItem := FoodItem("", 0.0, 0.0, 0.0, 0.0, 100.0)

  /**
   * A day's log. The per-entry scratch fields have no initialiser in the
   * record, so a fresh log leaves them indeterminate: None here.
   */
  datatype DailyLog = DailyLog(
    date: string,
    consumedMeals: seq<(FoodItem, real)>,
    mealType: string,
    foodName: string,
    grams: Option<real>,
    calories: Option<real>,
    protein: Option<real>,
    carbs: Option<real>,
    fat: Option<real>,
    totalCalories: real,
    totalProtein: real,
    totalCarbs: real,
    totalFat: real)

  /** A default-constructed DailyLog: no meals, zero totals, indeterminate scratch fields. */
  const NewDailyLog := DailyLog("", [], "", "", None, None, None, None, None, 0.0, 0.0, 0.0, 0.0)

  /** A default FoodItem has no name and no nutrients, with the 100-gram reference serving. */
  lemma {:induction false} FoodItemDefaults()
    ensures DefaultFoodItem.name == [] && DefaultFoodItem.servingSize == 100.0
    ensures DefaultFoodItem.calories == DefaultFoodItem.protein == DefaultFoodItem.carbs
            == DefaultFoodItem.fat == 0.0
  {
  }

  /** A fresh DailyLog has no meals, zero totals and no value in the per-entry number fields. */
  lemma {:induction false} DailyLogDefaults()
    ensures NewDailyLog.consumedMeals == [] && NewDailyLog.date == []
    ensures NewDailyLog.totalCalories == NewDailyLog.totalProtein == NewDailyLog.totalCarbs
            == NewDailyLog.totalFat == 0.0
    ensures NewDailyLog.grams.None? && NewDailyLog.calories.None? && NewDailyLog.protein.None?
            && NewDailyLog.carbs.None? && NewDailyLog.fat.None?
  {
  }
}
