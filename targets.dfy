/**
 * The nutrition targets of profile.cpp: basal metabolic rate by the
 * Mifflin-St Jeor formula, the activity multiplier looked up by keyword, and
 * the calorie and macronutrient targets stored back into the profile.
 * Arithmetic is on exact reals; double rounding is not modelled.
 */
module Targets {
  import opened Wrappers
  import opened CppString
  import opened CppNumeric
  import opened Models

  /** The gender test of calcBMR: exactly "Male" or "male". */
  predicate IsMaleLabel(gender: string)
  {
    gender == "Male" || gender == "male"
  }

  /**
   * calcBMR: Mifflin-St Jeor, 10 kcal per kg plus 6.25 kcal per cm minus
   * 5 kcal per year, then +5 kcal for a male label and -161 kcal for any other.
   */
  function CalcBMR(d: ProfileData): (r: real)
    ensures IsMaleLabel(d.gender) <==>
            r == 10.0 * d.weightKg + 6.25 * (d.heightCm as real) - 5.0 * (d.age as real) + 5.0
    ensures !IsMaleLabel(d.gender) <==>
            r == 10.0 * d.weightKg + 6.25 * (d.heightCm as real) - 5.0 * (d.age as real) - 161.0
  {
    var common := 10.0 * d.weightKg + 6.25 * (d.heightCm as real) - 5.0 * (d.age as real);
    if IsMaleLabel(d.gender) then common + 5.0 else common - 161.0
  }

  /** The male and the female formula differ by exactly 166 kcal, all else equal. */
  lemma {:induction false} CalcBMRGenderGap(d: ProfileData, other: string)
    requires IsMaleLabel(d.gender) && !IsMaleLabel(other)
    ensures CalcBMR(d) - CalcBMR(d.(gender := other)) == 166.0
  {
  }

  /**
   * Every label other than "Male" and "male" gets the female formula: other
   * spellings of male ("MALE", " Male") and the empty label included.
   */
  lemma {:induction false} CalcBMROtherLabels(d: ProfileData)
    ensures CalcBMR(d.(gender := "MALE")) == CalcBMR(d.(gender := "Female"))
    ensures CalcBMR(d.(gender := " Male")) == CalcBMR(d.(gender := "Female"))
    ensures CalcBMR(d.(gender := "")) == CalcBMR(d.(gender := "Female"))
  {
    assert !IsMaleLabel("MALE") by { assert "MALE"[1] != "Male"[1]; assert "MALE"[1] != "male"[1]; }
    assert !IsMaleLabel(" Male") by { assert |" Male"| != |"Male"|; }
    assert !IsMaleLabel("Female") by { assert |"Female"| != |"Male"|; }
  }

  /** BMR grows by 10 kcal per kg, by 6.25 kcal per cm and falls by 5 kcal per year. */
  lemma {:induction false} CalcBMRSlopes(d: ProfileData, age: Int32)
    ensures CalcBMR(d.(weightKg := d.weightKg + 1.0)) == CalcBMR(d) + 10.0
    ensures CalcBMR(d.(heightCm := d.heightCm + 1)) == CalcBMR(d) + 6.25
    ensures age == d.age + 1 ==> CalcBMR(d.(age := age)) == CalcBMR(d) - 5.0
  {
  }

  /**
   * activityMultiplier: the factor of the first of "Sedentary", "Lightly",
   * "Moderately", "Very" that occurs in the level (case-sensitive), and 1.2
   * when none does.
   */
  function ActivityMultiplier(level: string): (m: real)
    ensures m == 1.2 || m == 1.375 || m == 1.55 || m == 1.725
    ensures Occurs(level, "Sedentary") ==> m == 1.2
    ensures m == 1.725 <==> !Occurs(level, "Sedentary") && !Occurs(level, "Lightly")
                             && !Occurs(level, "Moderately") && Occurs(level, "Very")
  {
    if Find(level, "Sedentary").Some? then 1.2
    else if Find(level, "Lightly").Some? then 1.375
    else if Find(level, "Moderately").Some? then 1.55
    else if Find(level, "Very").Some? then 1.725
    else 1.2
  }

  /** The keywords and factors activityMultiplier tries, in order. */
  const ActivityTable: seq<(string, real)> :=
    [("Sedentary", 1.2), ("Lightly", 1.375), ("Moderately", 1.55), ("Very", 1.725)]

  /** The factor of the first table entry whose keyword occurs in `level`, or 1.2. */
  ghost function FirstMatch(level: string, table: seq<(string, real)>): real
  {
    if table == [] then 1.2
    else if Occurs(level, table[0].0) then table[0].1
    else FirstMatch(level, table[1..])
  }

  /** activityMultiplier is the first-match lookup in the keyword table. */
  lemma {:induction false} ActivityMultiplierIsTableLookup(level: string)
    ensures ActivityMultiplier(level) == FirstMatch(level, ActivityTable)
  {
    var t := ActivityTable;
    assert t[0] == ("Sedentary", 1.2) && t[1..][0] == ("Lightly", 1.375);
    assert t[1..][1..][0] == ("Moderately", 1.55) && t[1..][1..][1..][0] == ("Very", 1.725);
    assert t[1..][1..][1..][1..] == [];
    assert FirstMatch(level, t[1..][1..][1..]) == if Occurs(level, "Very") then 1.725 else 1.2;
    assert FirstMatch(level, t[1..][1..]) ==
      if Occurs(level, "Moderately") then 1.55 else FirstMatch(level, t[1..][1..][1..]);
    assert FirstMatch(level, t[1..]) ==
      if Occurs(level, "Lightly") then 1.375 else FirstMatch(level, t[1..][1..]);
  }

  /** No pattern whose first character is missing from `s` occurs in it. */
  lemma {:induction false} AbsentFirstChar(s: string, pat: string)
    requires pat != [] && pat[0] !in s
    ensures !Occurs(s, pat)
  {
    forall i: nat | MatchesAt(s, pat, i)
      ensures false
    {
    }
  }

  /** The standard level "Sedentary" gets 1.2. */
  lemma {:induction false} ActivityMultiplierSedentary()
    ensures ActivityMultiplier("Sedentary") == 1.2
  {
    assert MatchesAt("Sedentary", "Sedentary", 0);
  }

  /** The standard level "Lightly Active" gets 1.375. */
  lemma {:induction false} ActivityMultiplierLightlyActive()
    ensures ActivityMultiplier("Lightly Active") == 1.375
  {
    assert MatchesAt("Lightly Active", "Lightly", 0);
    AbsentFirstChar("Lightly Active", "Sedentary");
  }

  /** The standard level "Moderately Active" gets 1.55. */
  lemma {:induction false} ActivityMultiplierModeratelyActive()
    ensures ActivityMultiplier("Moderately Active") == 1.55
  {
    assert MatchesAt("Moderately Active", "Moderately", 0);
    AbsentFirstChar("Moderately Active", "Sedentary");
    AbsentFirstChar("Moderately Active", "Lightly");
  }

  /** The standard level "Very Active" gets 1.725. */
  lemma {:induction false} ActivityMultiplierVeryActive()
    ensures ActivityMultiplier("Very Active") == 1.725
  {
    assert MatchesAt("Very Active", "Very", 0);
    AbsentFirstChar("Very Active", "Sedentary");
    AbsentFirstChar("Very Active", "Lightly");
    AbsentFirstChar("Very Active", "Moderately");
  }

  /** The lookup is case-sensitive: a lower-case "very active" gets the default 1.2. */
  lemma {:induction false} ActivityMultiplierLowerCase()
    ensures ActivityMultiplier("very active") == 1.2
  {
    AbsentFirstChar("very active", "Sedentary");
    AbsentFirstChar("very active", "Lightly");
    AbsentFirstChar("very active", "Moderately");
    AbsentFirstChar("very active", "Very");
  }

  /** "Sedentary" is looked for first: "Very Sedentary" gets 1.2. */
  lemma {:induction false} ActivityMultiplierSedentaryFirst()
    ensures ActivityMultiplier("Very Sedentary") == 1.2
  {
    assert MatchesAt("Very Sedentary", "Sedentary", 5);
  }

  /**
   * `x` times the activity factor `m`, written out per factor so that the
   * arithmetic stays linear (ApplyFactorIsProduct shows it is `x * m`).
   */
  function ApplyFactor(x: real, m: real): real
  {
    if m == 1.2 then x * 1.2
    else if m == 1.375 then x * 1.375
    else if m == 1.55 then x * 1.55
    else if m == 1.725 then x * 1.725
    else x * m
  }

  /** ApplyFactor is multiplication. */
  lemma {:induction false} ApplyFactorIsProduct(x: real, m: real)
    ensures ApplyFactor(x, m) == x * m
  {
  }

  /**
   * Total daily energy expenditure: BMR times the activity factor, through
   * ApplyFactor so that it stays linear (TdeeIsProduct states the product).
   */
  function Tdee(d: ProfileData): real
  {
    ApplyFactor(CalcBMR(d), ActivityMultiplier(d.activityLevel))
  }

  /** The TDEE is the BMR multiplied by the activity multiplier. */
  lemma {:induction false} TdeeIsProduct(d: ProfileData)
    ensures Tdee(d) == CalcBMR(d) * ActivityMultiplier(d.activityLevel)
  {
    ApplyFactorIsProduct(CalcBMR(d), ActivityMultiplier(d.activityLevel));
  }

  /**
   * `target` is `x` rounded as std::round does: a whole number within half a
   * unit of `x`, and at an exact half the one farther from zero.
   */
  predicate RoundedFrom(target: real, x: real)
  {
    target.Floor as real == target && x - 0.5 <= target <= x + 0.5
    && (target == x + 0.5 ==> x > 0.0) && (target == x - 0.5 ==> x < 0.0)
  }

  /**
   * calcMacroTargets as a function of the profile: each target is a whole
   * number within half a unit of its formula (calories the TDEE, protein
   * 2 g per kg, carbohydrates 55 % and fat 25 % of the calories at 4 and
   * 9 kcal per gram), and nothing but the four targets changes.
   */
  function MacroTargets(d: ProfileData): (r: ProfileData)
    ensures RoundedFrom(r.caloriesTarget, Tdee(d))
    ensures RoundedFrom(r.proteinTarget, 2.0 * d.weightKg)
    ensures RoundedFrom(r.carbsTarget, r.caloriesTarget * 0.55 / 4.0)
    ensures RoundedFrom(r.fatTarget, r.caloriesTarget * 0.25 / 9.0)
    ensures r.(caloriesTarget := d.caloriesTarget, proteinTarget := d.proteinTarget,
               carbsTarget := d.carbsTarget, fatTarget := d.fatTarget) == d
  {
    var calories := Round(Tdee(d)) as real;
    RoundIsRounded(Tdee(d));
    RoundIsRounded(d.weightKg * 2.0);
    RoundIsRounded(calories * 0.55 / 4.0);
    RoundIsRounded(calories * 0.25 / 9.0);
    d.(caloriesTarget := calories,
       proteinTarget := Round(d.weightKg * 2.0) as real,
       carbsTarget := Round((calories * 0.55) / 4.0) as real,
       fatTarget := Round((calories * 0.25) / 9.0) as real)
  }

  /** std::round gives a whole number within half a unit, ties away from zero. */
  lemma {:induction false} RoundIsRounded(x: real)
    ensures RoundedFrom(Round(x) as real, x)
  {
  }

  /** The TDEE depends on weight, height, age, gender and activity level only. */
  lemma {:induction false} TdeeIgnoresTargets(d: ProfileData, e: ProfileData)
    requires e.weightKg == d.weightKg && e.heightCm == d.heightCm && e.age == d.age
    requires e.gender == d.gender && e.activityLevel == d.activityLevel
    ensures Tdee(e) == Tdee(d)
  {
    assert CalcBMR(e) == CalcBMR(d);
  }

  /** The targets depend on the inputs only: whatever targets the profile held before are ignored. */
  lemma {:induction false} MacroTargetsIgnoreOldTargets(d: ProfileData, c: real, p: real, cb: real, f: real)
    ensures MacroTargets(d.(caloriesTarget := c, proteinTarget := p, carbsTarget := cb, fatTarget := f))
            == MacroTargets(d)
  {
    var e := d.(caloriesTarget := c, proteinTarget := p, carbsTarget := cb, fatTarget := f);
    TdeeIgnoresTargets(d, e);
  }

  /** Recomputing the targets of a profile whose targets are already computed changes nothing. */
  lemma {:induction false} MacroTargetsIdempotent(d: ProfileData)
    ensures MacroTargets(MacroTargets(d)) == MacroTargets(d)
  {
    var m := MacroTargets(d);
    MacroTargetsIgnoreOldTargets(d, m.caloriesTarget, m.proteinTarget, m.carbsTarget, m.fatTarget);
    assert d.(caloriesTarget := m.caloriesTarget, proteinTarget := m.proteinTarget,
              carbsTarget := m.carbsTarget, fatTarget := m.fatTarget) == m;
  }

  /**
   * A worked case: 70 kg, 175 cm, 25 years, "Male", "Sedentary" gives a BMR
   * of 1673.75 kcal and targets of 2009 kcal, 140 g protein, 276 g
   * carbohydrates and 56 g fat.
   */
  lemma {:induction false} MacroTargetsSedentaryMale(d: ProfileData)
    requires d.weightKg == 70.0 && d.heightCm == 175 && d.age == 25
    requires d.gender == "Male" && d.activityLevel == "Sedentary"
    ensures CalcBMR(d) == 1673.75
    ensures MacroTargets(d).caloriesTarget == 2009.0
    ensures MacroTargets(d).proteinTarget == 140.0
    ensures MacroTargets(d).carbsTarget == 276.0
    ensures MacroTargets(d).fatTarget == 56.0
  {
    ActivityMultiplierSedentary();
    assert Tdee(d) == 2008.5;
  }

  /**
   * A second case: 70 kg, 175 cm, 30 years, "Female", "Lightly Active" gives
   * a BMR of 1482.75 kcal and targets of 2039 kcal, 140 g protein, 280 g
   * carbohydrates and 57 g fat.
   */
  lemma {:induction false} MacroTargetsLightlyActiveFemale(d: ProfileData)
    requires d.weightKg == 70.0 && d.heightCm == 175 && d.age == 30
    requires d.gender == "Female" && d.activityLevel == "Lightly Active"
    ensures CalcBMR(d) == 1482.75
    ensures MacroTargets(d).caloriesTarget == 2039.0
    ensures MacroTargets(d).proteinTarget == 140.0
    ensures MacroTargets(d).carbsTarget == 280.0
    ensures MacroTargets(d).fatTarget == 57.0
  {
    assert !IsMaleLabel("Female") by { assert |"Female"| != |"Male"|; }
    ActivityMultiplierLightlyActive();
    assert CalcBMR(d) == 1482.75;
    assert Tdee(d) == 2038.78125;
    assert Round(2038.78125) == 2039;
    assert Round(2039.0 * 0.55 / 4.0) == 280;
    assert Round(2039.0 * 0.25 / 9.0) == 57;
  }

  /** calcMacroTargets: the profile's targets are recomputed from its current fields. */
  method CalcMacroTargets(p: UserProfile)
    modifies p
    ensures p.Value() == MacroTargets(old(p.Value()))
  {
    var bmr := CalcBMR(p.Value());
    var tdee := ApplyFactor(bmr, ActivityMultiplier(p.activityLevel));
    p.caloriesTarget := Round(tdee) as real;
    p.proteinTarget := Round(p.weightKg * 2.0) as real;
    p.carbsTarget := Round((p.caloriesTarget * 0.55) / 4.0) as real;
    p.fatTarget := Round((p.caloriesTarget * 0.25) / 9.0) as real;
  }
}
