/** The meal planner page (src/pages/MealPlanner.js): the request it sends to
    the Spoonacular meal-plan endpoint, how it reacts to the reply, the map
    of meal images it fills from the per-recipe endpoint, and the labels it
    shows. The HTTP calls are parameters: the reply to the plan request and,
    for each meal id, the reply to its detail request. */
module MealPlanner {
  import opened Common
  import Tdee

  // ---------------------------------------------------------------------------
  // The request

  const PlanEndpoint := "https://api.spoonacular.com/mealplanner/generate?apiKey="

  /** `${tdee}` in the URL: the number's decimal spelling, or "null" before
      a value was loaded. The stored value is the rounded integer of the
      calculator. */
  function TdeeText(tdee: Option<int>): string
  {
    if tdee.None? then "null" else IntToString(tdee.value)
  }

  /** The `timeFrame` parameter: "day" for "daily", "week" for anything else. */
  function TimeFrameParam(timeFrame: string): (p: string)
    ensures p == "day" <==> timeFrame == "daily"
    ensures p == "week" <==> timeFrame != "daily"
  {
    if timeFrame == "daily" then "day" else "week"
  }

  /** `dietaryPreference && dietaryPreference !== "none"`. */
  predicate SendsDiet(diet: string)
  {
    diet != "" && diet != "none"
  }

  /** The URL before the optional diet parameter. */
  function BaseUrl(apiKey: string, tdeeText: string, timeFrame: string): string
  {
    PlanEndpoint + apiKey + "&targetCalories=" + tdeeText + "&timeFrame=" + TimeFrameParam(timeFrame)
  }

  /** The URL `fetchMealPlan` requests. */
  function MealPlanUrl(apiKey: string, tdeeText: string, timeFrame: string, diet: string): string
  {
    BaseUrl(apiKey, tdeeText, timeFrame) + (if SendsDiet(diet) then "&diet=" + diet else "")
  }

  /** A preference that is sent ends the URL as `&diet=<preference>`; "" and
      "none" give the URL with no preference at all. */
  lemma DietParameter(apiKey: string, tdeeText: string, timeFrame: string, diet: string)
    ensures SendsDiet(diet) ==>
              var url := MealPlanUrl(apiKey, tdeeText, timeFrame, diet);
              |url| >= |diet| + 6 && url[|url| - |diet| - 6..] == "&diet=" + diet
    ensures !SendsDiet(diet) ==>
              MealPlanUrl(apiKey, tdeeText, timeFrame, diet) == BaseUrl(apiKey, tdeeText, timeFrame)
  {
    if SendsDiet(diet) {
      var b := BaseUrl(apiKey, tdeeText, timeFrame);
      var url := MealPlanUrl(apiKey, tdeeText, timeFrame, diet);
      assert url == b + ("&diet=" + diet);
    }
  }

  /** Two preferences that are both sent give two different URLs. */
  lemma DietsDistinguished(apiKey: string, tdeeText: string, timeFrame: string, d1: string, d2: string)
    requires SendsDiet(d1) && SendsDiet(d2) && d1 != d2
    ensures MealPlanUrl(apiKey, tdeeText, timeFrame, d1) != MealPlanUrl(apiKey, tdeeText, timeFrame, d2)
  {
    var b := BaseUrl(apiKey, tdeeText, timeFrame);
    var u1 := MealPlanUrl(apiKey, tdeeText, timeFrame, d1);
    var u2 := MealPlanUrl(apiKey, tdeeText, timeFrame, d2);
    assert u1 == b + "&diet=" + d1 && u2 == b + "&diet=" + d2;
    assert u1[|b| + 6..] == d1;
    assert u2[|b| + 6..] == d2;
  }

  /** A daily and a weekly plan are never the same request. */
  lemma TimeFramesDistinguished(apiKey: string, tdeeText: string, timeFrame: string, diet: string)
    requires timeFrame != "daily"
    ensures MealPlanUrl(apiKey, tdeeText, "daily", diet) != MealPlanUrl(apiKey, tdeeText, timeFrame, diet)
  {
    var p := PlanEndpoint + apiKey + "&targetCalories=" + tdeeText + "&timeFrame=";
    var tail := if SendsDiet(diet) then "&diet=" + diet else "";
    var u1 := MealPlanUrl(apiKey, tdeeText, "daily", diet);
    var u2 := MealPlanUrl(apiKey, tdeeText, timeFrame, diet);
    assert u1 == p + ("day" + tail);
    assert u2 == p + ("week" + tail);
    assert u1[|p|] == 'd';
    assert u2[|p|] == 'w';
  }

  /** `if (tdee)`: the effect fetches only for a loaded, non-zero value. */
  predicate ShouldFetch(tdee: Option<int>)
  {
    tdee.Some? && tdee.value != 0
  }

  /** A profile inside the form's ranges always yields a plan request: the
      calculator stores at least 277, which is truthy. */
  lemma ProfileEnablesPlanner(p: Tdee.Profile)
    requires Tdee.WithinFormBounds(p)
    requires p.gender == "male" || p.gender == "female"
    ensures ShouldFetch(Some(Tdee.TdeeOf(p)))
  {
    Tdee.PositiveWithinBounds(p);
  }

  // ---------------------------------------------------------------------------
  // The replies

  datatype Meal = Meal(id: int)

  /** One entry of `week`: the day's key and its meals. */
  datatype DayPlan = DayPlan(name: string, meals: seq<Meal>)

  /** The JSON body of a plan: `meals` for a day, `week` for a week; either
      may be absent. */
  datatype MealPlan = MealPlan(meals: Option<seq<Meal>>, week: Option<seq<DayPlan>>)

  /** How the plan request ended: `fetch` threw, or a response with its
      `status` and `ok`, whose `json()` gave a body or threw (`None`). */
  datatype PlanReply = Threw | Responded(status: int, ok: bool, body: Option<MealPlan>)

  /** How one recipe's detail request ended: it threw, its body was null,
      or it had an `image` field ("" when absent or empty). */
  datatype DetailReply = DetailFailed | NullDetails | Details(image: string)

  const QuotaMessage := "Sorry! It looks like you've exceeded your API quota limit. Please consider upgrading your plan or contacting support for assistance."

  /** The bundled image used when a recipe comes without one. */
  const DefaultMealImage := "Default meal image.avif"

  /** Per day, the meals `fetchMealDetails` asks about: every day of `week`
      for a weekly plan that has one, otherwise the plan's own `meals`, and
      nothing if it has neither. */
  function MealsToFetch(plan: MealPlan, timeFrame: string): seq<seq<Meal>>
  {
    if timeFrame == "weekly" && plan.week.Some? then DayMeals(plan.week.value)
    else if plan.meals.Some? then [plan.meals.value]
    else []
  }

  function DayMeals(days: seq<DayPlan>): (r: seq<seq<Meal>>)
    ensures |r| == |days| && forall d :: 0 <= d < |days| ==> r[d] == days[d].meals
  {
    if days == [] then [] else DayMeals(days[..|days| - 1]) + [days[|days| - 1].meals]
  }

  function Flatten(days: seq<seq<Meal>>): seq<Meal>
  {
    if days == [] then [] else Flatten(days[..|days| - 1]) + days[|days| - 1]
  }

  /** The entry a detail reply contributes: its image, the default image when
      it has none, and nothing when the request threw or returned null. */
  function ImageFor(reply: DetailReply): (r: Option<string>)
    ensures r.Some? <==> reply.Details?
    ensures r.Some? ==> r.value == if reply.image != "" then reply.image else DefaultMealImage
  {
    match reply
    case Details(image) => Some(if image != "" then image else DefaultMealImage)
    case _ => None
  }

  /** `mealImagesMap` after every meal of `meals` was asked about. */
  function ImagesOf(meals: seq<Meal>, details: int -> DetailReply): map<int, string>
  {
    if meals == [] then map[]
    else
      var prev := ImagesOf(meals[..|meals| - 1], details);
      var id := meals[|meals| - 1].id;
      if ImageFor(details(id)).Some? then prev[id := ImageFor(details(id)).value] else prev
  }

  lemma ImagesOfSnoc(meals: seq<Meal>, meal: Meal, details: int -> DetailReply)
    ensures ImagesOf(meals + [meal], details)
            == if ImageFor(details(meal.id)).Some?
               then ImagesOf(meals, details)[meal.id := ImageFor(details(meal.id)).value]
               else ImagesOf(meals, details)
  {
    assert (meals + [meal])[..|meals|] == meals;
  }

  lemma FlattenSnoc(days: seq<seq<Meal>>, d: nat)
    requires d < |days|
    ensures Flatten(days[..d + 1]) == Flatten(days[..d]) + days[d]
  {
    assert days[..d + 1][..d] == days[..d];
  }

  /** The ids of `meals`. */
  function MealIds(meals: seq<Meal>): set<int>
  {
    set i | 0 <= i < |meals| :: meals[i].id
  }

  /** The image map holds an entry exactly for the meals whose detail
      request returned a body, and that entry is the recipe's image or the
      default one. */
  lemma {:induction false} ImagesFallBack(meals: seq<Meal>, details: int -> DetailReply)
    ensures forall id :: id in ImagesOf(meals, details) <==> id in MealIds(meals) && details(id).Details?
    ensures forall id :: id in ImagesOf(meals, details) ==>
              ImagesOf(meals, details)[id]
              == if details(id).image != "" then details(id).image else DefaultMealImage
  {
    if meals != [] {
      var init := meals[..|meals| - 1];
      ImagesFallBack(init, details);
      assert MealIds(meals) == MealIds(init) + {meals[|meals| - 1].id} by {
        forall id | id in MealIds(meals) ensures id in MealIds(init) || id == meals[|meals| - 1].id {
          var i :| 0 <= i < |meals| && meals[i].id == id;
          if i < |init| { assert init[i] == meals[i]; }
        }
        forall id | id in MealIds(init) ensures id in MealIds(meals) {
          var i :| 0 <= i < |init| && init[i].id == id;
          assert meals[i] == init[i];
        }
      }
    }
  }

  // ---------------------------------------------------------------------------
  // The labels

  const MealTypes: seq<string> := ["Breakfast", "Lunch", "Dinner"]

  /** `mealTypes[index % mealTypes.length]`. */
  function MealTypeLabel(index: nat): string
  {
    MealTypes[index % |MealTypes|]
  }

  /** The labels run Breakfast, Lunch, Dinner and start over. */
  lemma MealTypesCycle(k: nat)
    ensures MealTypeLabel(3 * k) == "Breakfast"
    ensures MealTypeLabel(3 * k + 1) == "Lunch"
    ensures MealTypeLabel(3 * k + 2) == "Dinner"
  {
    assert (3 * k) % 3 == 0 && (3 * k + 1) % 3 == 1 && (3 * k + 2) % 3 == 2;
  }

  /** `toUpperCase` on one character, for the ASCII letters day names use. */
  function UpperAscii(c: char): (u: char)
    ensures 'a' <= c <= 'z' ==> u as int == c as int - 32
    ensures !('a' <= c <= 'z') ==> u == c
  {
    if 'a' <= c <= 'z' then (c as int - 32) as char else c
  }

  /** `day.charAt(0).toUpperCase() + day.slice(1)`. */
  function Capitalize(day: string): string
  {
    if day == [] then [] else [UpperAscii(day[0])] + day[1..]
  }

  /** Capitalising changes at most the first character, to its capital, and
      doing it twice is doing it once. */
  lemma CapitalizeFirstOnly(day: string)
    ensures |Capitalize(day)| == |day|
    ensures day != [] ==> Capitalize(day)[0] == UpperAscii(day[0]) && Capitalize(day)[1..] == day[1..]
    ensures Capitalize(Capitalize(day)) == Capitalize(day)
  {
    if day != [] {
      var c := Capitalize(day);
      assert c[0] == UpperAscii(day[0]);
      assert c[1..] == day[1..];
    }
  }

  lemma CapitalizeMonday()
    ensures Capitalize("monday") == "Monday"
  {
  }

  /** What the page shows under the form. */
  datatype PlannerView =
    | AlertBox(className: string, message: string)   // no plan: the alert div, shown even when `showAlert` is false
    | WeekShown(headings: seq<string>)               // one capitalised heading per day
    | DayShown(count: nat)                           // that many meal cards
    | Loading                                        // a plan without meals

  function DayHeadings(days: seq<DayPlan>): (r: seq<string>)
    ensures |r| == |days| && forall d :: 0 <= d < |days| ==> r[d] == Capitalize(days[d].name) + ":"
  {
    if days == [] then [] else DayHeadings(days[..|days| - 1]) + [Capitalize(days[|days| - 1].name) + ":"]
  }

  function View(mealPlan: Option<MealPlan>, timeFrame: string, className: string, message: string): (v: PlannerView)
    ensures v.AlertBox? <==> mealPlan.None?
    ensures v.WeekShown? <==> mealPlan.Some? && timeFrame == "weekly" && mealPlan.value.week.Some?
  {
    if mealPlan.None? then AlertBox(className, message)
    else if timeFrame == "weekly" && mealPlan.value.week.Some? then WeekShown(DayHeadings(mealPlan.value.week.value))
    else if mealPlan.value.meals.Some? then DayShown(|mealPlan.value.meals.value|)
    else Loading
  }

  // ---------------------------------------------------------------------------
  // The page state

  class MealPlannerState {
    var tdee: Option<int>
    var timeFrame: string
    var dietaryPreference: string
    var mealPlan: Option<MealPlan>
    var mealImages: map<int, string>
    var showAlert: bool
    var showAlertMessage: string
    var showAlertClassName: string

    /** The initial state, after the mount effect copied the stored TDEE
        (`None` when nothing was stored). */
    constructor (storedTdee: Option<int>)
      ensures tdee == storedTdee && timeFrame == "daily" && dietaryPreference == ""
      ensures mealPlan.None? && mealImages == map[]
      ensures !showAlert && showAlertMessage == "" && showAlertClassName == ""
    {
      tdee := storedTdee;
      timeFrame := "daily";
      dietaryPreference := "";
      mealPlan := None;
      mealImages := map[];
      showAlert := false;
      showAlertMessage := "";
      showAlertClassName := "";
    }

    /** `fetchMealDetails(mealData)`: asks about every meal of every day
        and replaces the image map by what came back. */
    method FetchMealDetails(mealData: MealPlan, details: int -> DetailReply)
      modifies this
      ensures mealImages == ImagesOf(Flatten(MealsToFetch(mealData, timeFrame)), details)
      ensures tdee == old(tdee) && timeFrame == old(timeFrame) && dietaryPreference == old(dietaryPreference)
      ensures mealPlan == old(mealPlan) && showAlert == old(showAlert)
      ensures showAlertMessage == old(showAlertMessage) && showAlertClassName == old(showAlertClassName)
    {
      var mealsToFetch := MealsToFetch(mealData, timeFrame);
      var mealImagesMap: map<int, string> := map[];
      for d := 0 to |mealsToFetch|
        invariant mealImagesMap == ImagesOf(Flatten(mealsToFetch[..d]), details)
        modifies {}
      {
        var day := mealsToFetch[d];
        ghost var done := Flatten(mealsToFetch[..d]);
        assert done + day[..0] == done;
        for j := 0 to |day|
          invariant mealImagesMap == ImagesOf(done + day[..j], details)
          modifies {}
        {
          var meal := day[j];
          assert done + day[..j + 1] == (done + day[..j]) + [meal];
          ImagesOfSnoc(done + day[..j], meal, details);
          var mealDetails := details(meal.id);
          if mealDetails.Details? {
            if mealDetails.image != "" {
              mealImagesMap := mealImagesMap[meal.id := mealDetails.image];
            } else {
              mealImagesMap := mealImagesMap[meal.id := DefaultMealImage];
            }
          }
        }
        assert day[..|day|] == day;
        FlattenSnoc(mealsToFetch, d);
      }
      assert mealsToFetch[..|mealsToFetch|] == mealsToFetch;
      mealImages := mealImagesMap;
    }

    /** `fetchMealPlan` without the disabled test-data branch: builds the
        URL, then a 402 shows the quota alert and drops the plan, an `ok`
        reply hides the alert and stores the plan and its images, any other
        status changes nothing, and a thrown request or body drops the plan. */
    method FetchMealPlan(apiKey: string, reply: PlanReply, details: int -> DetailReply)
      returns (url: string)
      modifies this
      ensures url == MealPlanUrl(apiKey, TdeeText(tdee), timeFrame, dietaryPreference)
      ensures tdee == old(tdee) && timeFrame == old(timeFrame) && dietaryPreference == old(dietaryPreference)
      ensures reply.Threw? ==>
                mealPlan.None? && mealImages == old(mealImages) && showAlert == old(showAlert)
                && showAlertMessage == old(showAlertMessage) && showAlertClassName == old(showAlertClassName)
      ensures reply.Responded? && reply.status == 402 ==>
                mealPlan.None? && showAlert && showAlertMessage == QuotaMessage
                && showAlertClassName == AlertClass(false) && mealImages == old(mealImages)
      ensures reply.Responded? && reply.status != 402 && reply.ok ==>
                !showAlert && showAlertMessage == old(showAlertMessage)
                && showAlertClassName == old(showAlertClassName)
                && (reply.body.None? ==> mealPlan.None? && mealImages == old(mealImages))
                && (reply.body.Some? ==>
                      mealPlan == reply.body
                      && mealImages == ImagesOf(Flatten(MealsToFetch(reply.body.value, timeFrame)), details))
      ensures reply.Responded? && reply.status != 402 && !reply.ok ==>
                mealPlan == old(mealPlan) && mealImages == old(mealImages) && showAlert == old(showAlert)
                && showAlertMessage == old(showAlertMessage) && showAlertClassName == old(showAlertClassName)
    {
      url := BaseUrl(apiKey, TdeeText(tdee), timeFrame);
      if dietaryPreference != "" && dietaryPreference != "none" {
        url := url + "&diet=" + dietaryPreference;
      }
      assert url == MealPlanUrl(apiKey, TdeeText(tdee), timeFrame, dietaryPreference);
      if reply.Threw? {
        mealPlan := None;
        return;
      }
      if reply.status == 402 {
        showAlert := true;
        showAlertMessage := QuotaMessage;
        showAlertClassName := "alert alert-danger";
        assert showAlertClassName == AlertClass(false);
        mealPlan := None;
        return;
      }
      if reply.ok {
        showAlert := false;
        if reply.body.None? {
          mealPlan := None;
          return;
        }
        var data := reply.body.value;
        mealPlan := Some(data);
        FetchMealDetails(data, details);
      }
    }

    /** The effect on `[tdee, timeFrame, dietaryPreference]`: the plan is
        requested only for a truthy `tdee`; `url` is the request, if any. */
    method FetchEffect(apiKey: string, reply: PlanReply, details: int -> DetailReply)
      returns (url: Option<string>)
      modifies this
      ensures url.Some? <==> ShouldFetch(old(tdee))
      ensures url.Some? ==> url.value == MealPlanUrl(apiKey, TdeeText(tdee), timeFrame, dietaryPreference)
      ensures !ShouldFetch(old(tdee)) ==>
                mealPlan == old(mealPlan) && mealImages == old(mealImages) && showAlert == old(showAlert)
                && showAlertMessage == old(showAlertMessage) && showAlertClassName == old(showAlertClassName)
      ensures tdee == old(tdee) && timeFrame == old(timeFrame) && dietaryPreference == old(dietaryPreference)
    {
      if tdee.Some? && tdee.value != 0 {
        var requested := FetchMealPlan(apiKey, reply, details);
        url := Some(requested);
      } else {
        url := None;
      }
    }

    /** The duration select. */
    method SetTimeFrame(value: string)
      modifies this
      ensures timeFrame == value
      ensures tdee == old(tdee) && dietaryPreference == old(dietaryPreference)
      ensures mealPlan == old(mealPlan) && mealImages == old(mealImages) && showAlert == old(showAlert)
      ensures showAlertMessage == old(showAlertMessage) && showAlertClassName == old(showAlertClassName)
    {
      timeFrame := value;
    }

    /** The dietary preference select. */
    method SetDietaryPreference(value: string)
      modifies this
      ensures dietaryPreference == value
      ensures tdee == old(tdee) && timeFrame == old(timeFrame)
      ensures mealPlan == old(mealPlan) && mealImages == old(mealImages) && showAlert == old(showAlert)
      ensures showAlertMessage == old(showAlertMessage) && showAlertClassName == old(showAlertClassName)
    {
      dietaryPreference := value;
    }
  }
}
