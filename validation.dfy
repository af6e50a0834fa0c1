/** Field and step validation: the `validate` closure of each field control,
    the step validator `makeStep` builds from them, the conditional override
    the health step receives at every render, and the inline-error flags those
    validators raise and clear. */
module Validation {
  import opened Values
  import opened Manifest

  /** A field control's `validate()`: an optional field passes at once; a
      required one passes when its stored value is present and `String(v).trim()`
      is not empty. */
  function FieldPasses(f: Field, store: Store): (ok: bool)
    ensures ok <==> !f.required || (f.name in store && !Blank(Text(store[f.name])))
  {
    !f.required || (f.name in store && !TrimsToEmpty(Text(store[f.name])))
  }

  /** What the field rule means for each kind of stored value: a number always
      fills a required field; text fills it unless blank; a list fills it when
      it has two or more items, or a single item that is not blank. */
  lemma RequiredFieldByValue(f: Field, store: Store)
    requires f.required && f.name in store
    ensures store[f.name].Num? ==> FieldPasses(f, store)
    ensures store[f.name].Str? ==> (FieldPasses(f, store) <==> !Blank(store[f.name].s))
    ensures store[f.name].List? ==>
      (FieldPasses(f, store) <==>
        |store[f.name].items| >= 2 || (|store[f.name].items| == 1 && !Blank(store[f.name].items[0])))
  {
    match store[f.name]
    case Num(n) => NumTextNotBlank(n);
    case Str(_) =>
    case List(xs) => ListTextBlankIff(xs);
  }

  /** `validators.every(v => v())`: evaluated left to right, stopping at the
      first field that fails. */
  function Every(fs: seq<Field>, store: Store): (ok: bool)
    ensures ok <==> forall j :: 0 <= j < |fs| ==> FieldPasses(fs[j], store)
  {
    fs == [] || (FieldPasses(fs[0], store) && Every(fs[1..], store))
  }

  /** How many field validators `every` calls: all of them when every field
      passes, otherwise up to and including the first field that fails. */
  function Evaluated(fs: seq<Field>, store: Store): (k: nat)
    ensures k <= |fs|
    ensures forall j :: 0 <= j < k - 1 ==> FieldPasses(fs[j], store)
    ensures Every(fs, store) ==> k == |fs|
    ensures !Every(fs, store) ==> 1 <= k && !FieldPasses(fs[k - 1], store)
  {
    if fs == [] then 0
    else if !FieldPasses(fs[0], store) then 1
    else 1 + Evaluated(fs[1..], store)
  }

  /** The step validator: a step that skips validation passes without looking
      at its fields; any other passes exactly when all its fields do. */
  function StepPasses(def: StepDef, store: Store): (ok: bool)
    ensures ok <==> def.skipValidate || forall j :: 0 <= j < |def.fields| ==> FieldPasses(def.fields[j], store)
  {
    def.skipValidate || Every(def.fields, store)
  }

  /** The inline errors shown after the validators of `fs` ran in order: a
      required field shows its error when it fails and hides it when it passes;
      an optional field returns before it touches its error. */
  function FlagErrors(errs: set<string>, fs: seq<Field>, store: Store): set<string> {
    if fs == [] then errs
    else
      var f := fs[|fs| - 1];
      var before := FlagErrors(errs, fs[..|fs| - 1], store);
      if !f.required then before
      else if FieldPasses(f, store) then before - {f.name}
      else before + {f.name}
  }

  /** Validating fields leaves the flag of every other name as it was. */
  lemma {:induction false} FlagErrorsKeepsOthers(errs: set<string>, fs: seq<Field>, store: Store, n: string)
    requires forall j :: 0 <= j < |fs| ==> fs[j].name != n
    ensures n in FlagErrors(errs, fs, store) <==> n in errs
  {
    if fs != [] {
      var init := fs[..|fs| - 1];
      assert forall j :: 0 <= j < |init| ==> init[j] == fs[j];
      FlagErrorsKeepsOthers(errs, init, store, n);
      assert fs[|fs| - 1].name != n;
    }
  }

  /** When the names are distinct, a required field validated in `fs` shows its
      error exactly when it fails, and an optional one keeps its earlier flag. */
  lemma {:induction false} FlagErrorsShowsFailures(errs: set<string>, fs: seq<Field>, store: Store, j: nat)
    requires DistinctNames(fs) && j < |fs|
    ensures fs[j].required ==> (fs[j].name in FlagErrors(errs, fs, store) <==> !FieldPasses(fs[j], store))
    ensures !fs[j].required ==> (fs[j].name in FlagErrors(errs, fs, store) <==> fs[j].name in errs)
  {
    var init := fs[..|fs| - 1];
    if j < |fs| - 1 {
      assert DistinctNames(init);
      FlagErrorsShowsFailures(errs, init, store, j);
      assert fs[|fs| - 1].name != fs[j].name;
    } else {
      assert forall i :: 0 <= i < |init| ==> init[i].name != fs[j].name;
      FlagErrorsKeepsOthers(errs, init, store, fs[j].name);
    }
  }

  /** `every` stopped after `k` validators when those before the last passed
      and the last failed, or all of them ran and passed. */
  lemma EvaluatedAt(fs: seq<Field>, store: Store, k: nat)
    requires k <= |fs|
    requires forall j :: 0 <= j < k - 1 ==> FieldPasses(fs[j], store)
    requires (1 <= k && !FieldPasses(fs[k - 1], store)) || (k == |fs| && Every(fs, store))
    ensures Evaluated(fs, store) == k
  {
  }

  /** Validating one more field updates that field's flag alone. */
  lemma FlagErrorsNext(errs: set<string>, fs: seq<Field>, store: Store, k: nat)
    requires k < |fs|
    ensures FlagErrors(errs, fs[..k + 1], store) ==
      if !fs[k].required then FlagErrors(errs, fs[..k], store)
      else if FieldPasses(fs[k], store) then FlagErrors(errs, fs[..k], store) - {fs[k].name}
      else FlagErrors(errs, fs[..k], store) + {fs[k].name}
  {
    assert fs[..k + 1][..k] == fs[..k];
  }

  /** `validators.every(v => v())` as it runs over the validators of `fs`:
      returns its result, how many validators it called, and the inline errors
      they left. */
  method RunEvery(fs: seq<Field>, store: Store, errs: set<string>)
    returns (ok: bool, evaluated: nat, shown: set<string>)
    ensures ok == Every(fs, store)
    ensures evaluated == Evaluated(fs, store)
    ensures shown == FlagErrors(errs, fs[..evaluated], store)
  {
    ok, evaluated, shown := true, 0, errs;
    while evaluated < |fs| && ok
      invariant evaluated <= |fs|
      invariant ok == (evaluated == 0 || FieldPasses(fs[evaluated - 1], store))
      invariant forall j :: 0 <= j < evaluated - 1 ==> FieldPasses(fs[j], store)
      invariant shown == FlagErrors(errs, fs[..evaluated], store)
    {
      var f := fs[evaluated];
      ok := FieldPasses(f, store);
      if f.required {
        shown := if ok then shown - {f.name} else shown + {f.name};
      }
      FlagErrorsNext(errs, fs, store, evaluated);
      evaluated := evaluated + 1;
    }
    EvaluatedAt(fs, store, evaluated);
  }

  /** The step validator `makeStep` builds: returns the verdict, how many
      field validators it called, and the inline errors they left. */
  method RunStepValidator(def: StepDef, store: Store, errs: set<string>)
    returns (ok: bool, evaluated: nat, shown: set<string>)
    ensures ok == StepPasses(def, store)
    ensures evaluated == if def.skipValidate then 0 else Evaluated(def.fields, store)
    ensures shown == FlagErrors(errs, def.fields[..evaluated], store)
  {
    if def.skipValidate {
      assert def.fields[..0] == [];
      return true, 0, errs;
    }
    ok, evaluated, shown := RunEvery(def.fields, store, errs);
  }

  /** `(state['health_details'] || '')` when it is something `trim` can be
      called on: None when the stored details are a non-zero number or a list,
      for which the call throws. */
  function DetailsOperand(v: Option<Value>): Option<string> {
    if !Truthy(v) then Some("")
    else match v.value
      case Str(s) => Some(s)
      case _ => None
  }

  /** The validator `applyConditionalRules` installs on the health step, given
      `captured`, the value `health_yesno` had at the last render. None: the
      validator throws. */
  function HealthVerdict(captured: Option<Value>, store: Store): (v: Option<bool>)
    ensures captured != Some(Str("yes")) ==> v == Some(true)
    ensures captured == Some(Str("yes")) ==>
      (v == Some(true) <==> HealthDetails in store && store[HealthDetails].Str? && !Blank(store[HealthDetails].s))
    ensures v == None <==>
      captured == Some(Str("yes")) && HealthDetails in store && Truthy(Some(store[HealthDetails]))
      && !store[HealthDetails].Str?
  {
    if captured != Some(Str("yes")) then Some(true)
    else match DetailsOperand(Lookup(store, HealthDetails))
      case None => None
      case Some(t) => Some(!TrimsToEmpty(t))
  }

  /** The details error after the override ran: hidden on success, shown on
      failure, untouched when the captured answer is not "yes" or `trim` throws. */
  function HealthErrors(captured: Option<Value>, store: Store, errs: set<string>): set<string> {
    match HealthVerdict(captured, store)
    case Some(ok) =>
      if captured != Some(Str("yes")) then errs
      else if ok then errs - {HealthDetails}
      else errs + {HealthDetails}
    case None => errs
  }

  /** The validator the Next handler calls on step `i`: the override on the
      health step, `() => true` on the review step, the built step validator
      elsewhere. None: the validator throws. */
  function StepVerdict(i: nat, captured: Option<Value>, store: Store): Option<bool>
    requires i < StepCount
  {
    if i == HealthIndex then HealthVerdict(captured, store)
    else if i == ReviewIndex then Some(true)
    else Some(StepPasses(Steps[i], store))
  }

  /** The inline errors after the Next handler ran the validator of step `i`. */
  function StepErrors(i: nat, captured: Option<Value>, store: Store, errs: set<string>): set<string>
    requires i < StepCount
  {
    if i == HealthIndex then HealthErrors(captured, store, errs)
    else if i == ReviewIndex then errs
    else
      var def := Steps[i];
      FlagErrors(errs, def.fields[..if def.skipValidate then 0 else Evaluated(def.fields, store)], store)
  }

  /** Runs the validator of step `i` as the Next handler does, returning its
      verdict (None when it throws) and the inline errors it leaves. */
  method RunValidator(i: nat, captured: Option<Value>, store: Store, errs: set<string>)
    returns (verdict: Option<bool>, shown: set<string>)
    requires i < StepCount
    ensures verdict == StepVerdict(i, captured, store)
    ensures shown == StepErrors(i, captured, store, errs)
  {
    if i == HealthIndex {
      verdict := HealthVerdict(captured, store);
      shown := HealthErrors(captured, store, errs);
    } else if i == ReviewIndex {
      verdict, shown := Some(true), errs;
    } else {
      var ok, evaluated;
      ok, evaluated, shown := RunStepValidator(Steps[i], store, errs);
      verdict := Some(ok);
    }
  }

  /** The welcome step never checks its three required fields. */
  lemma WelcomeNeverChecked(captured: Option<Value>, store: Store)
    ensures StepVerdict(0, captured, store) == Some(true)
    ensures StepErrors(0, captured, store, {}) == {}
  {
  }

  /** A step that does not skip validation passes exactly when each of its
      required fields holds a value whose text is not blank. */
  lemma StepPassesIffRequiredFilled(def: StepDef, store: Store)
    requires !def.skipValidate
    ensures StepPasses(def, store) <==>
      forall f :: f in def.fields && f.required ==> f.name in store && !Blank(Text(store[f.name]))
  {
    var fs := def.fields;
    if StepPasses(def, store) {
      forall f | f in fs && f.required ensures f.name in store && !Blank(Text(store[f.name])) {
        var j :| 0 <= j < |fs| && fs[j] == f;
        assert FieldPasses(fs[j], store);
      }
    }
  }

  /** The required-field gate holds on the steps between welcome and health. */
  lemma RequiredGate(i: nat, captured: Option<Value>, store: Store)
    requires 0 < i < HealthIndex
    ensures StepVerdict(i, captured, store) == Some(true) <==>
      forall f :: f in Steps[i].fields && f.required ==> f.name in store && !Blank(Text(store[f.name]))
  {
    assert !Steps[i].skipValidate by {
      assert i == 1 || i == 2 || i == 3 || i == 4 || i == 5;
    }
    StepPassesIffRequiredFilled(Steps[i], store);
  }

  /** The override replaces the whole step validator: with no answer captured,
      the health step passes although `health_yesno` is required and empty. */
  lemma HealthAnswerNeverRequired(store: Store)
    requires HealthYesNo !in store && HealthDetails !in store
    ensures StepVerdict(HealthIndex, None, store) == Some(true)
    ensures !StepPasses(Steps[HealthIndex], store)
  {
    assert !FieldPasses(Steps[HealthIndex].fields[0], store);
  }

  /** The override reads the captured answer, not the live one: after "yes" is
      clicked on a health step rendered without an answer, empty details pass;
      after switching a captured "yes" to "no", empty details still fail. */
  lemma HealthReadsCapturedAnswer(store: Store)
    requires HealthDetails !in store
    ensures StepVerdict(HealthIndex, None, store[HealthYesNo := Str("yes")]) == Some(true)
    ensures HealthVerdict(Some(Str("yes")), store[HealthYesNo := Str("yes")]) == Some(false)
    ensures StepVerdict(HealthIndex, Some(Str("yes")), store[HealthYesNo := Str("no")]) == Some(false)
  {
  }
}
