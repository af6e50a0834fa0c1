/** The declarative step manifest: field kinds, field and step definitions,
    and the wizard's seven question steps. Only what the engine reads is kept:
    names, kinds with their option values, and the required, skippable and
    skip-validation flags. Labels, hints and microcopy are presentation. */
module Manifest {

  /** One case per control the renderer builds; options are the values
      (`opt.value ?? opt`) in authoring order. */
  datatype Kind =
    | TextBox
    | NumberBox
    | TextArea
    | Select(options: seq<string>)
    | MultiSelect(options: seq<string>)
    | RadioPill(options: seq<string>)
    | Range
    | Unrecognised

  datatype Field = Field(name: string, kind: Kind, required: bool, skippable: bool)

  datatype StepDef = StepDef(skipValidate: bool, fields: seq<Field>)

  function Req(name: string, kind: Kind): Field { Field(name, kind, true, false) }
  function Opt(name: string, kind: Kind): Field { Field(name, kind, false, false) }
  function Skippable(name: string, kind: Kind): Field { Field(name, kind, false, true) }

  const Welcome := StepDef(true, [
    Req("contact_preference", RadioPill(["WhatsApp", "Email"])),
    Req("full_name", TextBox),
    Req("phone", TextBox)
  ])

  const AboutYou := StepDef(false, [
    Req("age", NumberBox),
    Req("gender", RadioPill(["Male", "Female", "Prefer not to say"])),
    Req("height", TextBox),
    Req("weight", TextBox),
    Skippable("goal_weight", TextBox)
  ])

  const DayAndWorkouts := StepDef(false, [
    Req("workday", Select(["sedentary", "light", "active", "very_active"])),
    Req("workouts_per_week", Select(["0", "1\U{2013}2", "3\U{2013}4", "5\U{2013}6", "7+"])),
    Skippable("workout_notes", TextArea)
  ])

  const Goals := StepDef(false, [
    Req("main_goal", RadioPill(["fat_loss", "muscle_gain", "recomp", "general"])),
    Req("timeline", Select(["4 weeks", "8 weeks", "12 weeks", "No rush"]))
  ])

  const FoodPreferences := StepDef(false, [
    Req("diet_pref", RadioPill(["Vegetarian", "Vegan", "Eggetarian", "Non\U{2011}veg"])),
    Opt("faves", MultiSelect(["roti_dal", "paneer_tikka", "veggie_wrap", "greek_yogurt",
                              "fruit_chaat", "smoothie", "oatmeal_fruit", "egg_bhurji", "other"])),
    Opt("avoid_foods", TextArea),
    Opt("allergies", TextArea)
  ])

  const DailyHabits := StepDef(false, [
    Req("meals_per_day", Select(["1", "2", "3", "4", "5+"])),
    Req("snack_often", RadioPill(["Yes", "No"])),
    Opt("drinks", TextBox),
    Opt("water", TextBox)
  ])

  const HealthNotes := StepDef(false, [
    Req("health_yesno", RadioPill(["no", "yes"])),
    Req("health_details", TextArea)
  ])

  /** The step definitions in authoring order; the review step follows them. */
  const Steps: seq<StepDef> :=
    [Welcome, AboutYou, DayAndWorkouts, Goals, FoodPreferences, DailyHabits, HealthNotes]

  /** `steps.length`: every definition plus the appended review step. */
  const StepCount: nat := |Steps| + 1

  /** The last index, held by the review step. */
  const ReviewIndex: nat := |Steps|

  /** The health step is taken to be the last definition. */
  const HealthIndex: nat := |Steps| - 1

  const HealthYesNo := "health_yesno"
  const HealthDetails := "health_details"

  /** Every field of every definition, in the order render builds them. */
  function FieldsOf(defs: seq<StepDef>): seq<Field> {
    if defs == [] then [] else defs[0].fields + FieldsOf(defs[1..])
  }

  const AllFields: seq<Field> := FieldsOf(Steps)

  /** The fields render builds are the seven steps' fields, step after step. */
  lemma AllFieldsInStepOrder()
    ensures AllFields == Welcome.fields + AboutYou.fields + DayAndWorkouts.fields + Goals.fields
                         + FoodPreferences.fields + DailyHabits.fields + HealthNotes.fields
  {
    var s := Steps;
    assert s[1..][1..][1..][1..][1..][1..][1..] == [];
    assert FieldsOf(s[1..][1..][1..][1..][1..][1..]) == HealthNotes.fields;
    assert FieldsOf(s[1..][1..][1..][1..][1..]) == DailyHabits.fields + HealthNotes.fields;
    assert FieldsOf(s[1..][1..][1..][1..])
        == FoodPreferences.fields + DailyHabits.fields + HealthNotes.fields;
    assert FieldsOf(s[1..][1..][1..])
        == Goals.fields + FoodPreferences.fields + DailyHabits.fields + HealthNotes.fields;
    assert FieldsOf(s[1..][1..])
        == DayAndWorkouts.fields + Goals.fields + FoodPreferences.fields + DailyHabits.fields + HealthNotes.fields;
    assert FieldsOf(s[1..])
        == AboutYou.fields + DayAndWorkouts.fields + Goals.fields + FoodPreferences.fields
           + DailyHabits.fields + HealthNotes.fields;
  }

  /** No two fields of `fs` share a storage key. */
  predicate DistinctNames(fs: seq<Field>) {
    forall i, j :: 0 <= i < j < |fs| ==> fs[i].name != fs[j].name
  }

  /** No field of `a` shares a storage key with a field of `b`. */
  predicate NamesApart(a: seq<Field>, b: seq<Field>) {
    forall i, j :: 0 <= i < |a| && 0 <= j < |b| ==> a[i].name != b[j].name
  }

  lemma DistinctAppend(a: seq<Field>, b: seq<Field>)
    requires DistinctNames(a) && DistinctNames(b) && NamesApart(a, b)
    ensures DistinctNames(a + b)
  {
  }

  /** The manifest's names are shown distinct step by step: each step's
      names are distinct and apart from those of the steps before it. */
  lemma WelcomeDistinct()
    ensures DistinctNames(Welcome.fields)
  {
  }

  lemma AboutYouApart()
    ensures DistinctNames(AboutYou.fields)
    ensures NamesApart(Welcome.fields, AboutYou.fields)
  {
  }

  lemma DayAndWorkoutsApart()
    ensures DistinctNames(DayAndWorkouts.fields)
    ensures NamesApart(Welcome.fields + AboutYou.fields, DayAndWorkouts.fields)
  {
  }

  lemma GoalsApart()
    ensures DistinctNames(Goals.fields)
    ensures NamesApart(Welcome.fields + AboutYou.fields + DayAndWorkouts.fields, Goals.fields)
  {
  }

  lemma FoodPreferencesApart()
    ensures DistinctNames(FoodPreferences.fields)
    ensures NamesApart(Welcome.fields + AboutYou.fields + DayAndWorkouts.fields + Goals.fields,
                       FoodPreferences.fields)
  {
  }

  lemma DailyHabitsApart()
    ensures DistinctNames(DailyHabits.fields)
    ensures NamesApart(Welcome.fields + AboutYou.fields + DayAndWorkouts.fields + Goals.fields
                       + FoodPreferences.fields, DailyHabits.fields)
  {
  }

  lemma HealthNotesApart()
    ensures DistinctNames(HealthNotes.fields)
    ensures NamesApart(Welcome.fields + AboutYou.fields + DayAndWorkouts.fields + Goals.fields
                       + FoodPreferences.fields + DailyHabits.fields, HealthNotes.fields)
  {
  }

  /** No two fields of the app's manifest share a storage key. */
  lemma ManifestNamesDistinct()
    ensures DistinctNames(AllFields)
  {
    AllFieldsInStepOrder();
    WelcomeDistinct();
    var p := Welcome.fields;
    AboutYouApart();
    DistinctAppend(p, AboutYou.fields);
    p := p + AboutYou.fields;
    DayAndWorkoutsApart();
    DistinctAppend(p, DayAndWorkouts.fields);
    p := p + DayAndWorkouts.fields;
    GoalsApart();
    DistinctAppend(p, Goals.fields);
    p := p + Goals.fields;
    FoodPreferencesApart();
    DistinctAppend(p, FoodPreferences.fields);
    p := p + FoodPreferences.fields;
    DailyHabitsApart();
    DistinctAppend(p, DailyHabits.fields);
    p := p + DailyHabits.fields;
    HealthNotesApart();
    DistinctAppend(p, HealthNotes.fields);
  }
}
