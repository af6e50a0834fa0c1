/** The running wizard: the shared answer store and its persisted copy, the
    step index, and what the last render left behind (the captured health
    answer, the visible inline errors and the active pills). Every handler of
    the page is a method here. */
module Wizard {
  import opened Values
  import opened Manifest
  import opened Validation
  import opened Controls
  import Navigation

  /** The store read at startup from a persisted snapshot, empty when nothing
      was saved. */
  function Load(saved: Option<Store>): Store {
    match saved
    case Some(m) => m
    case None => map[]
  }

  /** Rendering "Your Day & Workouts" over a store without its selects stores
      both select defaults. */
  lemma DayAndWorkoutsDefaults(b: Built)
    requires "workday" !in b.store && "workouts_per_week" !in b.store
    ensures BuildFields(b, DayAndWorkouts.fields).store ==
      b.store["workday" := Str("sedentary")]["workouts_per_week" := Str("0")]
  {
    var d := DayAndWorkouts.fields;
    assert d == [d[0]] + [d[1]] + [d[2]];
    BuildFieldsAppend(b, [d[0]] + [d[1]], [d[2]]);
    BuildFieldsAppend(b, [d[0]], [d[1]]);
    BuildFieldsSingle(b, d[0]);
    var x0 := BuildField(b, d[0]);
    BuildFieldsSingle(x0, d[1]);
    var x1 := BuildField(x0, d[1]);
    BuildFieldsSingle(x1, d[2]);
  }

  /** Rendering "Goals" over a store without a timeline stores its default. */
  lemma GoalsDefaults(b: Built)
    requires "timeline" !in b.store
    ensures BuildFields(b, Goals.fields).store == b.store["timeline" := Str("4 weeks")]
  {
    var g := Goals.fields;
    assert g == [g[0]] + [g[1]];
    BuildFieldsAppend(b, [g[0]], [g[1]]);
    BuildFieldsSingle(b, g[0]);
    BuildFieldsSingle(BuildField(b, g[0]), g[1]);
  }

  /** Rendering "Daily Habits" over a store without meals per day stores its
      default. */
  lemma DailyHabitsDefaults(b: Built)
    requires "meals_per_day" !in b.store
    ensures BuildFields(b, DailyHabits.fields).store == b.store["meals_per_day" := Str("1")]
  {
    var h := DailyHabits.fields;
    assert h == [h[0]] + h[1..];
    BuildFieldsAppend(b, [h[0]], h[1..]);
    BuildFieldsSingle(b, h[0]);
    var x0 := BuildField(b, h[0]);
    assert x0.store == b.store["meals_per_day" := Str("1")];
    BuildOverFilledStore(x0, h[1..]);
  }

  /** Rendering the steps without select fields leaves the store as it was. */
  lemma NoSelectSteps(b: Built)
    ensures BuildFields(b, Welcome.fields).store == b.store
    ensures BuildFields(b, AboutYou.fields).store == b.store
    ensures BuildFields(b, FoodPreferences.fields).store == b.store
    ensures BuildFields(b, HealthNotes.fields).store == b.store
  {
    BuildOverFilledStore(b, Welcome.fields);
    BuildOverFilledStore(b, AboutYou.fields);
    BuildOverFilledStore(b, FoodPreferences.fields);
    BuildOverFilledStore(b, HealthNotes.fields);
  }

  /** Building seven runs of fields one after another. */
  lemma BuildSevenRuns(b: Built, w: seq<Field>, a: seq<Field>, d: seq<Field>, g: seq<Field>,
                       f: seq<Field>, h: seq<Field>, n: seq<Field>)
    ensures BuildFields(b, w + a + d + g + f + h + n) ==
      BuildFields(BuildFields(BuildFields(BuildFields(BuildFields(BuildFields(BuildFields(
        b, w), a), d), g), f), h), n)
  {
    BuildFieldsAppend(b, w, a);
    BuildFieldsAppend(b, w + a, d);
    BuildFieldsAppend(b, w + a + d, g);
    BuildFieldsAppend(b, w + a + d + g, f);
    BuildFieldsAppend(b, w + a + d + g + f, h);
    BuildFieldsAppend(b, w + a + d + g + f + h, n);
  }

  /** What Reset leaves: the store holds the four select defaults of the
      manifest and nothing else. */
  lemma ResetStore()
    ensures BuildFields(Built(map[], map[]), AllFields).store ==
      map["workday" := Str("sedentary"), "workouts_per_week" := Str("0"),
          "timeline" := Str("4 weeks"), "meals_per_day" := Str("1")]
  {
    AllFieldsInStepOrder();
    var b0 := Built(map[], map[]);
    BuildSevenRuns(b0, Welcome.fields, AboutYou.fields, DayAndWorkouts.fields, Goals.fields,
                   FoodPreferences.fields, DailyHabits.fields, HealthNotes.fields);
    var b1 := BuildFields(b0, Welcome.fields);
    NoSelectSteps(b0);
    var b2 := BuildFields(b1, AboutYou.fields);
    NoSelectSteps(b1);
    var b3 := BuildFields(b2, DayAndWorkouts.fields);
    DayAndWorkoutsDefaults(b2);
    var b4 := BuildFields(b3, Goals.fields);
    GoalsDefaults(b3);
    var b5 := BuildFields(b4, FoodPreferences.fields);
    NoSelectSteps(b4);
    var b6 := BuildFields(b5, DailyHabits.fields);
    DailyHabitsDefaults(b5);
    NoSelectSteps(b6);
  }

  class Session {
    /** The shared answer store (`state`). */
    var state: Store
    /** The persisted copy under the storage key; None once it is removed. */
    var storage: Option<Store>
    var stepIndex: nat
    /** `health_yesno` as read by `applyConditionalRules` at the last render. */
    var captured: Option<Value>
    /** Names of the fields whose inline error is visible. */
    var errors: set<string>
    /** The active pills of each radio-pill field. */
    var pills: map<string, set<nat>>

    /** The index stays on a step, and reloading from storage gives back the
        store. */
    ghost predicate Valid()
      reads this
    {
      stepIndex < StepCount && Load(storage) == state
    }

    /** Startup: restore the store from storage, start on the first step and
        render. */
    constructor (saved: Option<Store>)
      ensures Valid() && stepIndex == 0
      ensures state == BuildFields(Built(Load(saved), map[]), AllFields).store
      ensures pills == BuildFields(Built(Load(saved), map[]), AllFields).pills
      ensures captured == Lookup(state, HealthYesNo) && errors == {}
    {
      state := Load(saved);
      storage := saved;
      stepIndex := 0;
      captured := None;
      errors := {};
      pills := map[];
      new;
      Render();
    }

    /** `saveState()`, also the Save button. */
    method Save()
      modifies this`storage
      ensures storage == Some(state)
    {
      storage := Some(state);
    }

    /** `setVal(v)` of the control bound to `name`: overwrite one key, then
        persist. */
    method SetVal(name: string, v: Value)
      modifies this`state, this`storage
      ensures state == old(state)[name := v]
      ensures storage == Some(state)
    {
      state := state[name := v];
      Save();
    }

    /** The skip button of a skippable field: remove its key, then persist. */
    method Skip(f: Field)
      requires f.skippable
      modifies this`state, this`storage
      ensures state == old(state) - {f.name}
      ensures storage == Some(state)
    {
      state := state - {f.name};
      Save();
    }

    /** Typing into a text, number or long-text control stores the raw text. */
    method TypeText(f: Field, text: string)
      requires f.kind.TextBox? || f.kind.NumberBox? || f.kind.TextArea?
      modifies this`state, this`storage
      ensures state == old(state)[f.name := Str(text)]
      ensures storage == Some(state)
    {
      SetVal(f.name, Str(text));
    }

    /** Changing a select stores the chosen option's value. */
    method ChooseOption(f: Field, k: nat)
      requires f.kind.Select? && k < |f.kind.options|
      modifies this`state, this`storage
      ensures state == old(state)[f.name := Str(f.kind.options[k])]
      ensures storage == Some(state)
    {
      SetVal(f.name, Str(f.kind.options[k]));
    }

    /** Changing a multi-select stores the selected values in option order. */
    method PickOptions(f: Field, picked: seq<bool>)
      requires f.kind.MultiSelect? && |picked| == |f.kind.options|
      modifies this`state, this`storage
      ensures state == old(state)[f.name := List(SelectedValues(f.kind.options, picked))]
      ensures storage == Some(state)
    {
      SetVal(f.name, List(SelectedValues(f.kind.options, picked)));
    }

    /** A click in a pill row: outside any pill nothing happens; on pill `k`
        that pill alone becomes active and its value is stored. */
    method ClickPill(f: Field, target: Option<nat>)
      requires f.kind.RadioPill? && (target.Some? ==> target.value < |f.kind.options|)
      modifies this`state, this`storage, this`pills
      ensures target.None? ==> state == old(state) && storage == old(storage) && pills == old(pills)
      ensures target.Some? ==>
        && state == old(state)[f.name := Str(f.kind.options[target.value])]
        && storage == Some(state)
        && pills == old(pills)[f.name := {target.value}]
    {
      if target.None? {
        return;
      }
      var k := target.value;
      pills := pills[f.name := {k}];
      SetVal(f.name, Str(f.kind.options[k]));
    }

    /** Moving a range slider stores its value as a number. */
    method Slide(f: Field, value: int)
      requires f.kind.Range?
      modifies this`state, this`storage
      ensures state == old(state)[f.name := Num(value)]
      ensures storage == Some(state)
    {
      SetVal(f.name, Num(value));
    }

    /** Building the controls of `fs` in order, as far as they touch the
        store (select defaults, stored and persisted) and the pills. */
    method BuildControls(fs: seq<Field>)
      requires Valid()
      modifies this`state, this`storage, this`pills
      ensures Valid()
      ensures Built(state, pills) == BuildFields(Built(old(state), old(pills)), fs)
      ensures storage == if state == old(state) then old(storage) else Some(state)
    {
      ghost var changed := false;
      var k := 0;
      while k < |fs|
        invariant k <= |fs| && stepIndex == old(stepIndex)
        invariant Built(state, pills) == BuildFields(Built(old(state), old(pills)), fs[..k])
        invariant old(state).Keys <= state.Keys
        invariant !changed ==> state == old(state) && storage == old(storage)
        invariant changed ==> storage == Some(state) && state.Keys != old(state).Keys
      {
        var f := fs[k];
        assert fs[..k + 1] == fs[..k] + [f];
        match f.kind {
          case Select(options) =>
            if f.name !in state && |options| > 0 {
              SetVal(f.name, Str(options[0]));
              changed := true;
            }
          case RadioPill(options) =>
            pills := pills[f.name := RestoredPills(options, Lookup(state, f.name))];
          case _ =>
        }
        k := k + 1;
      }
      assert fs[..k] == fs;
    }

    /** `render()`: rebuild every step's controls (fresh, hidden errors;
        select defaults stored and persisted; pills restored), then capture
        `health_yesno` for the health override. */
    method Render()
      requires Valid()
      modifies this`state, this`storage, this`pills, this`errors, this`captured
      ensures Valid()
      ensures state == BuildFields(Built(old(state), map[]), AllFields).store
      ensures pills == BuildFields(Built(old(state), map[]), AllFields).pills
      ensures storage == if state == old(state) then old(storage) else Some(state)
      ensures errors == {} && captured == Lookup(state, HealthYesNo)
    {
      errors := {};
      pills := map[];
      BuildControls(AllFields);
      captured := Lookup(state, HealthYesNo);
    }

    /** The Back button: step back and render, except on the first step. */
    method Back()
      requires Valid()
      modifies this
      ensures Valid()
      ensures stepIndex == if old(stepIndex) > 0 then old(stepIndex) - 1 else 0
      ensures old(stepIndex) == 0 ==>
        state == old(state) && storage == old(storage) && errors == old(errors)
        && captured == old(captured) && pills == old(pills)
      ensures old(stepIndex) > 0 ==>
        && state == BuildFields(Built(old(state), map[]), AllFields).store
        && pills == BuildFields(Built(old(state), map[]), AllFields).pills
        && errors == {} && captured == Lookup(state, HealthYesNo)
    {
      if stepIndex > 0 {
        stepIndex := stepIndex - 1;
        Render();
      }
    }

    /** The Next / Finish button: run the current step's validator; on failure
        (or when it throws) stay put with its errors shown; on success advance
        and render, except on the review step, which is final. */
    method Next() returns (advanced: bool)
      requires Valid()
      modifies this
      ensures Valid()
      ensures advanced <==>
        StepVerdict(old(stepIndex), old(captured), old(state)) == Some(true) && old(stepIndex) < ReviewIndex
      ensures stepIndex == if advanced then old(stepIndex) + 1 else old(stepIndex)
      ensures !advanced ==>
        && state == old(state) && storage == old(storage) && captured == old(captured) && pills == old(pills)
        && errors == StepErrors(old(stepIndex), old(captured), old(state), old(errors))
      ensures advanced ==>
        && state == BuildFields(Built(old(state), map[]), AllFields).store
        && pills == BuildFields(Built(old(state), map[]), AllFields).pills
        && errors == {} && captured == Lookup(state, HealthYesNo)
    {
      var verdict, shown := RunValidator(stepIndex, captured, state, errors);
      if verdict == Some(true) && stepIndex < ReviewIndex {
        stepIndex := stepIndex + 1;
        Render();
        return true;
      }
      errors := shown;
      return false;
    }

    /** The first half of the Reset button: remove the persisted copy, delete
        every key of the store, go back to the first step. */
    method Clear()
      modifies this`state, this`storage, this`stepIndex
      ensures state == map[] && storage == None && stepIndex == 0
    {
      storage := None;
      var keys := state.Keys;
      while keys != {}
        invariant state.Keys == keys && storage == None
        decreases keys
      {
        var k :| k in keys;
        state := state - {k};
        keys := keys - {k};
      }
      stepIndex := 0;
    }

    /** The Reset button: clear, then render; the render stores the select
        defaults again, so the store ends holding exactly those. */
    method Reset()
      modifies this
      ensures Valid() && stepIndex == 0
      ensures state == map["workday" := Str("sedentary"), "workouts_per_week" := Str("0"),
                           "timeline" := Str("4 weeks"), "meals_per_day" := Str("1")]
      ensures storage == Some(state)
      ensures pills == BuildFields(Built(map[], map[]), AllFields).pills
      ensures errors == {} && captured == None
    {
      Clear();
      Render();
      ResetStore();
      assert "workday" in state;
    }

    /** The progress percentage render shows. */
    function ProgressPercent(): (pct: int)
      requires Valid()
      reads this
      ensures 0 <= pct <= 100
      ensures pct == 0 <==> stepIndex == 0
      ensures pct == 100 <==> stepIndex == ReviewIndex
    {
      Navigation.ProgressMatchesButtons(stepIndex, StepCount);
      Navigation.Progress(stepIndex, StepCount)
    }

    /** Whether render disables the Back button: exactly on the first step,
        where the bar reads 0%. */
    function BackDisabled(): (disabled: bool)
      requires Valid()
      reads this
      ensures disabled <==> stepIndex == 0
      ensures disabled <==> ProgressPercent() == 0
    {
      Navigation.BackDisabled(stepIndex)
    }

    /** The label render puts on the Next button: "Finish" exactly on the
        review step, where the bar reads 100%, and "Next" elsewhere. */
    function NextLabel(): (caption: string)
      requires Valid()
      reads this
      ensures caption == "Finish" <==> stepIndex == ReviewIndex
      ensures caption == "Finish" <==> ProgressPercent() == 100
      ensures caption != "Finish" ==> caption == "Next"
    {
      Navigation.NextLabel(stepIndex, StepCount)
    }
  }
}
