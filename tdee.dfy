/** `useTdee` (src/hooks/useTdee.js): total daily energy expenditure from the
    Mifflin-St Jeor basal metabolic rate, an activity factor and a goal
    factor, rounded the way `Math.round` rounds, and kept in the hook's
    `tdee` state. Arithmetic is exact (`real`); JavaScript's doubles are
    not modelled. */
module Tdee {
  import opened Common

  /** The form data handed to `calculateTdee`; the numeric fields arrive as
      strings and are coerced by the multiplications, here taken as numbers. */
  datatype Profile = Profile(age: real, weight: real, height: real,
                             gender: string, activityLevel: string, healthGoals: string)

  /** The basal metabolic rate; 0 for a gender other than "male" and "female". */
  function Bmr(p: Profile): real
  {
    if p.gender == "male" then 10.0 * p.weight + 6.25 * p.height - 5.0 * p.age + 5.0
    else if p.gender == "female" then 10.0 * p.weight + 6.25 * p.height - 5.0 * p.age - 161.0
    else 0.0
  }

  /** The multiplier of the activity level; every unknown level, "sedentary"
      and "" included, takes the sedentary 1.2. */
  function ActivityFactor(level: string): (f: real)
    ensures 1.2 <= f <= 1.9
  {
    if level == "lightlyActive" then 1.375
    else if level == "moderatelyActive" then 1.55
    else if level == "veryActive" then 1.725
    else if level == "extraActive" then 1.9
    else 1.2
  }

  /** The multiplier of the health goal; any other goal leaves the value as
      it is. */
  function GoalFactor(goal: string): (f: real)
    ensures 0.8 <= f <= 1.2
  {
    if goal == "weight_loss" then 0.8
    else if goal == "muscle_gain" then 1.2
    else 1.0
  }

  /** `Math.round(x)`: the nearest integer, halves going up. */
  function Round(x: real): (r: int)
    ensures x - 0.5 < r as real <= x + 0.5
  {
    (x + 0.5).Floor
  }

  /** The value `calculateTdee` stores. */
  function TdeeOf(p: Profile): int
  {
    Round(Bmr(p) * ActivityFactor(p.activityLevel) * GoalFactor(p.healthGoals))
  }

  class TdeeStore {
    var tdee: Option<int>

    /** `useState(null)`. */
    constructor ()
      ensures tdee.None?
    {
      tdee := None;
    }

    /** `calculateTdee(data)`: the BMR, times the activity factor, times the
        goal factor, rounded and stored. */
    method CalculateTdee(p: Profile)
      modifies this
      ensures tdee == Some(TdeeOf(p))
    {
      var bmr := Bmr(p);
      var activityFactor := ActivityFactor(p.activityLevel);
      var baseTdee := bmr * activityFactor * GoalFactor(p.healthGoals);
      var roundedTdee := Round(baseTdee);
      tdee := Some(roundedTdee);
    }

    /** `getTdee`. */
    function GetTdee(): Option<int>
      reads this
    {
      tdee
    }
  }

  // ---------------------------------------------------------------------------
  // Properties

  /** For the same body, a man's BMR is 166 above a woman's. */
  lemma MaleMinusFemale(age: real, weight: real, height: real, level: string, goal: string)
    ensures Bmr(Profile(age, weight, height, "male", level, goal))
            - Bmr(Profile(age, weight, height, "female", level, goal)) == 166.0
  {
  }

  /** Any other gender gives a TDEE of 0, whatever the rest of the profile. */
  lemma UnknownGenderIsZero(p: Profile)
    requires p.gender != "male" && p.gender != "female"
    ensures TdeeOf(p) == 0
  {
  }

  /** The activity levels are ordered from sedentary to extra active. */
  lemma ActivityLevelsOrdered(other: string)
    requires other != "lightlyActive" && other != "moderatelyActive"
    requires other != "veryActive" && other != "extraActive"
    ensures ActivityFactor(other) < ActivityFactor("lightlyActive") < ActivityFactor("moderatelyActive")
            < ActivityFactor("veryActive") < ActivityFactor("extraActive")
    ensures ActivityFactor(other) == ActivityFactor("sedentary")
  {
  }

  /** Weight loss lowers and muscle gain raises the target against any other
      goal. */
  lemma GoalsOrdered(other: string)
    requires other != "weight_loss" && other != "muscle_gain"
    ensures GoalFactor("weight_loss") < GoalFactor(other) < GoalFactor("muscle_gain")
  {
  }

  lemma RoundMonotone(x: real, y: real)
    requires x <= y
    ensures Round(x) <= Round(y)
  {
  }

  lemma ScaleMonotone(x: real, y: real, f: real)
    requires x <= y && f >= 0.0
    ensures x * f <= y * f
  {
  }

  /** More weight never lowers the TDEE, the rest of the profile fixed. */
  lemma MonotoneInWeight(p: Profile, heavier: real)
    requires p.gender == "male" || p.gender == "female"
    requires p.weight <= heavier
    ensures TdeeOf(p) <= TdeeOf(p.(weight := heavier))
  {
    var q := p.(weight := heavier);
    var a := ActivityFactor(p.activityLevel);
    var g := GoalFactor(p.healthGoals);
    assert Bmr(p) <= Bmr(q);
    ScaleMonotone(Bmr(p), Bmr(q), a);
    ScaleMonotone(Bmr(p) * a, Bmr(q) * a, g);
    RoundMonotone(Bmr(p) * a * g, Bmr(q) * a * g);
  }

  /** More height never lowers the TDEE. */
  lemma MonotoneInHeight(p: Profile, taller: real)
    requires p.gender == "male" || p.gender == "female"
    requires p.height <= taller
    ensures TdeeOf(p) <= TdeeOf(p.(height := taller))
  {
    var q := p.(height := taller);
    var a := ActivityFactor(p.activityLevel);
    var g := GoalFactor(p.healthGoals);
    assert Bmr(p) <= Bmr(q);
    ScaleMonotone(Bmr(p), Bmr(q), a);
    ScaleMonotone(Bmr(p) * a, Bmr(q) * a, g);
    RoundMonotone(Bmr(p) * a * g, Bmr(q) * a * g);
  }

  /** More age never raises the TDEE. */
  lemma AntitoneInAge(p: Profile, older: real)
    requires p.gender == "male" || p.gender == "female"
    requires p.age <= older
    ensures TdeeOf(p.(age := older)) <= TdeeOf(p)
  {
    var q := p.(age := older);
    var a := ActivityFactor(p.activityLevel);
    var g := GoalFactor(p.healthGoals);
    assert Bmr(q) <= Bmr(p);
    ScaleMonotone(Bmr(q), Bmr(p), a);
    ScaleMonotone(Bmr(q) * a, Bmr(p) * a, g);
    RoundMonotone(Bmr(q) * a * g, Bmr(p) * a * g);
  }

  /** The ranges the profile form enforces (src/pages/UserPersonalised.js). */
  predicate WithinFormBounds(p: Profile)
  {
    0.0 <= p.age <= 120.0 && 30.0 <= p.weight <= 250.0 && 120.0 <= p.height <= 250.0
  }

  /** Inside the form's ranges a man or a woman always gets a positive TDEE:
      the smallest BMR there is 289, and the factors are at least 1.2 and 0.8. */
  lemma PositiveWithinBounds(p: Profile)
    requires WithinFormBounds(p)
    requires p.gender == "male" || p.gender == "female"
    ensures TdeeOf(p) >= 277
  {
    var a := ActivityFactor(p.activityLevel);
    var g := GoalFactor(p.healthGoals);
    assert Bmr(p) >= 289.0;
    ScaleMonotone(289.0, Bmr(p), a);
    assert 289.0 * 1.2 <= 289.0 * a;
    ScaleMonotone(289.0 * 1.2, Bmr(p) * a, g);
    assert 289.0 * 1.2 * 0.8 <= 289.0 * 1.2 * g;
    RoundMonotone(289.0 * 1.2 * 0.8, Bmr(p) * a * g);
  }

  /** The case the header links to: a sedentary 30-year-old man of 65 kg and
      171 cm maintaining weight, 1888.5 before rounding. */
  lemma LinkedExample()
    ensures TdeeOf(Profile(30.0, 65.0, 171.0, "male", "sedentary", "health_improvement")) == 1889
  {
    var p := Profile(30.0, 65.0, 171.0, "male", "sedentary", "health_improvement");
    assert Bmr(p) == 1573.75;
    assert Bmr(p) * ActivityFactor(p.activityLevel) * GoalFactor(p.healthGoals) == 1888.5;
  }
}
