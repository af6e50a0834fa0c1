# Fitness intake wizard: a verified model of its engine

The intake app is a single-page, multi-step questionnaire. A declarative
manifest of seven question steps, followed by a review step, drives one
script. That script:

- builds the controls,
- keeps every answer in one shared store (`state`) that it persists to
  browser storage after each change,
- validates the current step before moving on,
- shows progress,
- offers the review list and the download name of the answers.

This project models that engine. Seven modules:

- `Values` holds the stored answer shapes (text, number, list of option
  values) and the JavaScript conversions validation relies on: `String(v)`
  (an array joins with commas), `trim` over the ECMAScript whitespace set,
  truthiness, and the decimal text of a number.
- `Manifest` holds the field kinds, the field and step definitions, and the
  seven steps as constants. Only the names, option values and the
  required / skippable / skip-validation flags are kept.
- `Validation` holds:
  - the field rule;
  - the step rule (`every`, which stops at the first failure, and
    `skipValidate`);
  - the inline-error flags;
  - the conditional validator installed on the health step;
  - the verdict the Next handler gets for each step.
- `Controls` holds what rendering does to the store and to the pills:
  - a select with no stored answer stores its first option;
  - a radio-pill row restores its active pill;
  - a multi-select yields its chosen values in option order.
- `TextFormat` holds `prettify`, the review list's display text, and the
  download filename.
- `Navigation` holds the progress percentage (`Math.round` of a ratio,
  rounding half up), the Back-disabled flag and the Next/Finish label.
- `Wizard` holds the running page as the class `Session`. Its fields:
  - `state`, the store;
  - `storage`, the persisted copy;
  - `stepIndex`;
  - `captured`, the health answer the last render read;
  - `errors`, the set of visible inline errors;
  - `pills`, the active pills.

  Every handler is a method of `Session`: the control handlers, Skip, Save,
  render, Back, Next, and Reset. The class invariant `Valid()` says two
  things. The index is on a step. Reloading the persisted copy gives back
  the store.

Where the code behaves in a way its labels and comments do not suggest, the
model follows the code. Those places:

- The health step's validator is installed by every render. It reads
  `health_yesno` at that moment, not when Next is pressed. Suppose the
  health step was rendered without an answer, "yes" is then clicked and the
  details are left empty. Next still passes.
  `Validation.HealthReadsCapturedAnswer` states this.
- The override replaces the health step's built validator. So
  `health_yesno`, although marked required, is never checked
  (`Validation.HealthAnswerNeverRequired`).
- The welcome step has `skipValidate`. Its three required fields are never
  checked (`Validation.WelcomeNeverChecked`).
- The step rule uses `every`, which stops at the first failing field. Only
  the errors up to that field are updated; an error an earlier Next showed
  on a later field stays visible (`Validation.RunStepValidator`,
  `Validation.FlagErrorsKeepsOthers`).
- Reset clears storage and the store, then renders. The render stores the
  four select defaults again and persists them. After Reset the store holds
  exactly `workday`, `workouts_per_week`, `timeline` and `meals_per_day`
  (`Wizard.Session.Reset`).
- A non-zero number or a list stored under `health_details` makes
  `(… || '').trim()` throw. The model gives the verdict None in that case:
  the click does nothing.

## Model

| member | source | states |
|---|---|---|
| Values.TrimEmptyIffBlank | script.js:207 | `trim` yields the empty string exactly when every character is ECMAScript whitespace |
| Values.TrimStart | script.js:207 | leading whitespace is stripped: the rest is a suffix not starting with whitespace |
| Values.TrimEnd | script.js:207 | trailing whitespace is stripped: the rest is a prefix not ending with whitespace |
| Values.TrimsToEmpty | script.js:207 | the test `trim() === ''` holds exactly when the text is all whitespace |
| Values.NatText | script.js:207 | the decimal text of a number is non-empty and all digits |
| Values.NatTextRoundTrip | script.js:207 | the decimal text `String(n)` gives a number reads back as that number |
| Values.NumTextNotBlank | script.js:207 | a stored number's text is never blank |
| Values.ListTextBlankIff | script.js:207 | an array's `String` is blank iff the array is empty or is one blank item |
| Manifest.AllFieldsInStepOrder | script.js:299-395 | the fields render builds are the seven steps' fields, step after step |
| Manifest.ManifestNamesDistinct | script.js:299-395 | no two fields of the manifest share a storage key, so the lemmas that assume distinct names hold of the app's own fields |
| Validation.FieldPasses | script.js:204-215 | an optional field passes; a required one passes iff its value is present and its text is not blank |
| Validation.RequiredFieldByValue | script.js:204-207 | a number always fills a required field; text fills it iff not blank; a list fills it iff it has at least two items or one non-blank item |
| Validation.Every | script.js:238 | `every` holds iff every field validator passes |
| Validation.Evaluated | script.js:238 | `every` calls all validators when all pass, otherwise exactly those up to and including the first failure |
| Validation.StepPasses | script.js:236-239 | a step that skips validation passes; any other passes iff all its fields pass |
| Validation.FlagErrorsKeepsOthers | script.js:208-213 | validating fields leaves the inline error of every name outside them as it was |
| Validation.FlagErrorsShowsFailures | script.js:204-215 | with distinct names, a validated required field shows its error iff it fails, and an optional field keeps its earlier flag |
| Validation.RunEvery | script.js:238 | the loop of `every` returns whether all validators pass, how many it called (all, or up to the first failure), and the errors they left |
| Validation.RunStepValidator | script.js:236-239 | the step validator returns the step verdict, calls no validator when the step skips validation, and otherwise leaves the errors of the validators `every` called |
| Validation.RunValidator | script.js:466 | the validator Next runs on a step returns that step's verdict and leaves that step's errors |
| Validation.HealthVerdict | script.js:398-424 | with a captured answer other than "yes" the health step passes; with "yes" it passes iff the details are non-blank text; it throws iff the details are truthy but not text |
| Validation.WelcomeNeverChecked | script.js:304-310 | the welcome step passes whatever the store holds and shows no error |
| Validation.StepPassesIffRequiredFilled | script.js:204-239 | a validated step passes iff each of its required fields holds a value with non-blank text |
| Validation.RequiredGate | script.js:312-385 | on every step between welcome and health, Next's verdict is pass iff every required field is filled |
| Validation.HealthAnswerNeverRequired | script.js:391-424 | with no answer captured, the health step passes while its own required-field rule would fail |
| Validation.HealthReadsCapturedAnswer | script.js:400-424 | the override decides by the answer captured at render: a live "yes" with empty details passes when nothing was captured; a captured "yes" fails after a switch to "no" |
| Controls.RestoredPills | script.js:158-166 | a pill is active after render iff the stored answer is truthy and equals that pill's value |
| Controls.RestoredPillsAtMostOne | script.js:158-166 | with distinct option values at most one pill is restored |
| Controls.ClickedPillRestored | script.js:150-166 | the pill whose value was stored by a click is the one restored at the next render |
| Controls.BuildKeepsAnswers | script.js:101-109 | render never overwrites a stored answer; every key it adds is a select's name holding that select's first option |
| Controls.BuildFillsSelects | script.js:101-109 | after render every select with options has an answer |
| Controls.BuildFieldsAppend | script.js:431 | building two runs of fields is building the first, then the second |
| Controls.BuildFromEmptyKeys | script.js:101-109 | rendering over an empty store answers exactly the names of the selects with options |
| Controls.BuildFromEmptyValues | script.js:101-109 | rendering over an empty store gives each select its first option unless an earlier select of that name answered first |
| Controls.SelectDefaultIsFirstOption | script.js:101-109 | with distinct names, an unanswered select ends holding its first option |
| Controls.BuildOverFilledStore | script.js:101-109 | once every select is answered, render leaves the store unchanged |
| Controls.BuildIdempotent | script.js:101-109 | a second render adds nothing to the store |
| Controls.BuildRestoresPills | script.js:159-166 | with distinct names, each radio-pill row's active set after render is the restored set of its stored answer |
| Controls.SelectedValues | script.js:133-136 | a multi-select stores at most its options, and a value iff one of its selected options has that value |
| Controls.SelectedValuesInOrder | script.js:133-136 | the stored values follow option order: selecting over two runs of options concatenates their values |
| TextFormat.UpperWordChar | script.js:295 | upper-casing keeps the word-character class and leaves no ASCII lower-case letter |
| TextFormat.SpaceUnderscores | script.js:295 | every underscore becomes a space and every other character is kept |
| TextFormat.CapitalizeWordsAt | script.js:295 | each character is upper-cased iff it is a word character at a word boundary |
| TextFormat.PrettifyAt | script.js:294-296 | each label character is the key's character with underscores spaced, upper-cased exactly at word starts |
| TextFormat.PrettifyShape | script.js:294-296 | a label is as long as its key, holds no underscore, and starts no word with a lower-case letter |
| TextFormat.PrettifyIdempotent | script.js:294-296 | prettifying a label again changes nothing |
| TextFormat.SplitDisplayed | script.js:257 | splitting a display text on ", " yields at least one item |
| TextFormat.SplitDisplayedPrefix | script.js:257 | splitting text that starts with a comma-free run glues that run to the first item |
| TextFormat.DisplayListRoundTrip | script.js:257 | a non-empty list of comma-free values is recovered from its review text |
| TextFormat.ReviewEntries | script.js:253-258 | the review list has one entry per stored key, each labelled with the prettified key (underscore-free and as long as the key); text answers are shown as stored, numbers as their decimal text and lists joined with ", " |
| TextFormat.DashColonsAndT | script.js:277 | every ':' and 'T' becomes '-' and every other character is kept |
| TextFormat.DownloadName | script.js:277-278 | the name is "intake-", at most 19 timestamp characters with no ':' or 'T', then ".json" |
| TextFormat.DownloadNameOfTimestamp | script.js:277-278 | for an ISO timestamp the name is "intake-YYYY-MM-DD-hh-mm-ss.json" |
| TextFormat.DownloadNameDistinguishesSeconds | script.js:277-278 | timestamps that differ to the second give different names |
| Navigation.Progress | script.js:441 | the percentage is 100·i/(n−1) rounded half up, and lies between 0 and 100 |
| Navigation.ProgressUnique | script.js:441 | the rounding bound determines the percentage uniquely |
| Navigation.ProgressEnds | script.js:441 | progress is 0 on the first step and 100 on the last |
| Navigation.ProgressMonotone | script.js:441 | progress never decreases as the index grows |
| Navigation.ProgressMatchesButtons | script.js:441-447 | for up to 200 steps: progress is 0 iff Back is disabled, and 100 iff the button reads Finish |
| Wizard.NoSelectSteps | script.js:305-392 | rendering a step without select fields (welcome, about you, food preferences, health notes) leaves the store as it was |
| Wizard.DayAndWorkoutsDefaults | script.js:329-335 | rendering "Your Day & Workouts" stores `workday` = sedentary and `workouts_per_week` = 0 |
| Wizard.GoalsDefaults | script.js:350 | rendering "Goals" stores `timeline` = 4 weeks |
| Wizard.DailyHabitsDefaults | script.js:380 | rendering "Daily Habits" stores `meals_per_day` = 1 |
| Wizard.ResetStore | script.js:283-289 | rendering over an empty store leaves exactly the four select defaults |
| Wizard.Session.constructor | script.js:16-18 | startup loads the persisted store, starts on step 0 and renders |
| Wizard.Session.Save | script.js:22-24 | the persisted copy becomes the store |
| Wizard.Session.SetVal | script.js:76-79 | one key is overwritten, nothing else changes, and the store is persisted |
| Wizard.Session.Skip | script.js:65-71 | the field's key is removed and the store persisted |
| Wizard.Session.TypeText | script.js:83-92 | typing stores the raw text under the field's name |
| Wizard.Session.ChooseOption | script.js:110 | changing a select stores the chosen option's value |
| Wizard.Session.PickOptions | script.js:133-136 | changing a multi-select stores the selected values in option order |
| Wizard.Session.ClickPill | script.js:150-156 | a click outside any pill changes nothing; on a pill that pill alone becomes active and its value is stored |
| Wizard.Session.Slide | script.js:191-194 | moving the slider stores its value as a number |
| Wizard.Session.BuildControls | script.js:101-109 | building each control in turn stores the missing select defaults, persisting only when one was added, and sets each pill row's active set, as the render fold says |
| Wizard.Session.Render | script.js:428-454 | render keeps the invariant, applies the select defaults and restores the pills, persists only when a default was added, hides every error, and captures `health_yesno` |
| Wizard.Session.Back | script.js:457-462 | Back steps down and renders (select defaults stored, pills restored, errors hidden), and does nothing on the first step |
| Wizard.Session.Next | script.js:464-476 | Next advances iff the current step's verdict is pass and the step is not the review; on success it renders (select defaults stored, pills restored, errors hidden); on failure the store stays as it was and the step's errors are shown |
| Wizard.Session.Clear | script.js:284-286 | storage is removed, every key deleted, the index reset |
| Wizard.Session.Reset | script.js:283-289 | after Reset the store holds exactly the four select defaults, persisted, on step 0 with no errors and the pills restored from the emptied store |
| Wizard.Session.ProgressPercent | script.js:441 | the shown percentage is between 0 and 100, 0 iff on the first step and 100 iff on the review step |
| Wizard.Session.BackDisabled | script.js:441-445 | Back is disabled exactly on the first step, where the bar reads 0% |
| Wizard.Session.NextLabel | script.js:441-447 | the button reads "Finish" exactly on the review step, where the bar reads 100%, and "Next" elsewhere |

## Left out

- The DOM is not modelled: templates, labels, hints, the "why" tags and the display toggling of steps. The toast messages, the clipboard copy and the Blob download are left out too. These are presentation or browser I/O.
- The WhatsApp share link and `JSON.stringify` are not modelled. Storage is taken to hold an exact copy of the store, since JSON round-trips strings, integers and string arrays.
- `localStorage` holding text that is not JSON makes `JSON.parse` throw at startup. The constructor takes the parsed snapshot (or none) as a parameter instead.
- `new Date().toISOString()` is a clock. `DownloadName` takes the ISO string as a parameter.
- `Number(slider.value)` and the slider's min, max and default are not modelled. `Slide` takes the integer the slider yields; no field of the manifest is a range.
- `console.warn` for an unknown field type is not modelled. The `Unrecognised` kind only builds nothing.
- The order of the review list is not modelled. `Object.entries` lists keys in insertion order, while `ReviewEntries` is a map.
- `relevant` is never consulted by the code, so it is not modelled.
- Floating point is not modelled. `Navigation.Progress` computes the rounding on rationals, which matches `Math.round` for the eight steps of the app. It requires at least two steps, because with one step the division is 0/0.
- `Values.Text` writes numbers as integers. Fractions and the exponent form `String` uses from 1e21 are not modelled.
