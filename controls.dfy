/** The store updates the field controls make: the select default and the
    active pills `fieldControl` restores when render builds every field, the
    ordered list a multi-select stores, and the pill a click activates. */
module Controls {
  import opened Values
  import opened Manifest

  /** A select field render fills in when nothing is stored for it. */
  predicate Defaultable(f: Field) {
    f.kind.Select? && |f.kind.options| > 0
  }

  /** The pills a radio-pill control marks active when it is built: when the
      stored value is truthy, each pill whose value is strictly equal to it. */
  function RestoredPills(options: seq<string>, v: Option<Value>): (active: set<nat>)
    ensures forall k: nat :: k in active <==> k < |options| && Truthy(v) && v == Some(Str(options[k]))
  {
    if Truthy(v) && v.value.Str? then set k: nat | k < |options| && options[k] == v.value.s else {}
  }

  /** With distinct option values, at most one pill is restored as active. */
  lemma RestoredPillsAtMostOne(options: seq<string>, v: Option<Value>)
    requires forall i, j :: 0 <= i < j < |options| ==> options[i] != options[j]
    ensures forall a, b :: a in RestoredPills(options, v) && b in RestoredPills(options, v) ==> a == b
  {
  }

  /** Clicking pill `k` of distinct, non-empty option values and rendering again
      restores exactly that pill. */
  lemma ClickedPillRestored(options: seq<string>, k: nat)
    requires k < |options| && options[k] != []
    requires forall i, j :: 0 <= i < j < |options| ==> options[i] != options[j]
    ensures RestoredPills(options, Some(Str(options[k]))) == {k}
  {
    var r := RestoredPills(options, Some(Str(options[k])));
    assert k in r;
  }

  /** What building the controls produces: the answer store (with any select
      defaults stored) and the active pills of each radio-pill field. */
  datatype Built = Built(store: Store, pills: map<string, set<nat>>)

  /** `fieldControl(f)` at render time, as far as it touches the store and
      the pills. */
  function BuildField(b: Built, f: Field): Built {
    match f.kind
    case Select(options) =>
      if f.name !in b.store && |options| > 0 then b.(store := b.store[f.name := Str(options[0])]) else b
    case RadioPill(options) =>
      b.(pills := b.pills[f.name := RestoredPills(options, Lookup(b.store, f.name))])
    case _ => b
  }

  /** Building the controls of `fs` in order. */
  function BuildFields(b: Built, fs: seq<Field>): Built {
    if fs == [] then b else BuildField(BuildFields(b, fs[..|fs| - 1]), fs[|fs| - 1])
  }

  /** Building `xs + ys` builds `xs`, then `ys`. */
  lemma {:induction false} BuildFieldsAppend(b: Built, xs: seq<Field>, ys: seq<Field>)
    ensures BuildFields(b, xs + ys) == BuildFields(BuildFields(b, xs), ys)
  {
    if ys == [] {
      assert xs + ys == xs;
    } else {
      BuildFieldsAppend(b, xs, ys[..|ys| - 1]);
      assert (xs + ys)[..|xs + ys| - 1] == xs + ys[..|ys| - 1];
    }
  }

  /** Building one field is BuildField. */
  lemma BuildFieldsSingle(b: Built, f: Field)
    ensures BuildFields(b, [f]) == BuildField(b, f)
  {
    assert [f][..0] == [];
  }

  /** Render never overwrites an answer, and every answer it adds is the first
      option of a select field of that name. */
  lemma {:induction false} BuildKeepsAnswers(b: Built, fs: seq<Field>)
    ensures forall n :: n in b.store ==> n in BuildFields(b, fs).store && BuildFields(b, fs).store[n] == b.store[n]
    ensures forall n :: n in BuildFields(b, fs).store && n !in b.store ==>
      exists j :: 0 <= j < |fs| && Defaultable(fs[j]) && fs[j].name == n
        && BuildFields(b, fs).store[n] == Str(fs[j].kind.options[0])
  {
    if fs != [] {
      var init := fs[..|fs| - 1];
      BuildKeepsAnswers(b, init);
      var mid := BuildFields(b, init);
      var r := BuildFields(b, fs);
      forall n | n in r.store && n !in b.store
        ensures exists j :: 0 <= j < |fs| && Defaultable(fs[j]) && fs[j].name == n && r.store[n] == Str(fs[j].kind.options[0])
      {
        if n in mid.store {
          var j :| 0 <= j < |init| && Defaultable(init[j]) && init[j].name == n && mid.store[n] == Str(init[j].kind.options[0]);
          assert fs[j] == init[j];
        } else {
          assert Defaultable(fs[|fs| - 1]) && fs[|fs| - 1].name == n;
        }
      }
    }
  }

  /** After render every select field with options has an answer. */
  lemma {:induction false} BuildFillsSelects(b: Built, fs: seq<Field>)
    ensures forall j :: 0 <= j < |fs| && Defaultable(fs[j]) ==> fs[j].name in BuildFields(b, fs).store
  {
    if fs != [] {
      var init := fs[..|fs| - 1];
      BuildFillsSelects(b, init);
      forall j | 0 <= j < |fs| && Defaultable(fs[j]) ensures fs[j].name in BuildFields(b, fs).store {
        if j < |init| {
          assert fs[j] == init[j];
        }
      }
    }
  }

  /** Rendering over an empty store answers exactly the select fields with
      options. */
  lemma BuildFromEmptyKeys(p: map<string, set<nat>>, fs: seq<Field>)
    ensures forall n :: n in BuildFields(Built(map[], p), fs).store <==>
      exists j :: 0 <= j < |fs| && Defaultable(fs[j]) && fs[j].name == n
  {
    BuildKeepsAnswers(Built(map[], p), fs);
    BuildFillsSelects(Built(map[], p), fs);
  }

  /** Rendering over an empty store gives each select field with options its
      first option, unless an earlier select of the same name answered first. */
  lemma {:induction false} BuildFromEmptyValues(p: map<string, set<nat>>, fs: seq<Field>)
    ensures forall j ::
      (0 <= j < |fs| && Defaultable(fs[j])
       && (forall i :: 0 <= i < j && Defaultable(fs[i]) ==> fs[i].name != fs[j].name))
      ==> fs[j].name in BuildFields(Built(map[], p), fs).store
          && BuildFields(Built(map[], p), fs).store[fs[j].name] == Str(fs[j].kind.options[0])
  {
    if fs != [] {
      var b := Built(map[], p);
      var init := fs[..|fs| - 1];
      BuildFromEmptyValues(p, init);
      BuildFromEmptyKeys(p, init);
      var mid := BuildFields(b, init);
      var r := BuildFields(b, fs);
      forall j | 0 <= j < |fs| && Defaultable(fs[j])
        && (forall i :: 0 <= i < j && Defaultable(fs[i]) ==> fs[i].name != fs[j].name)
        ensures fs[j].name in r.store && r.store[fs[j].name] == Str(fs[j].kind.options[0])
      {
        if j < |init| {
          assert init[j] == fs[j];
          assert forall i :: 0 <= i < j ==> init[i] == fs[i];
          assert r.store[fs[j].name] == mid.store[fs[j].name];
        } else {
          assert forall i :: 0 <= i < |init| ==> init[i] == fs[i];
          assert fs[j].name !in mid.store;
        }
      }
    }
  }

  /** With distinct names, a select field that had no answer gets its first
      option. */
  lemma SelectDefaultIsFirstOption(b: Built, fs: seq<Field>, j: nat)
    requires DistinctNames(fs) && j < |fs| && Defaultable(fs[j]) && fs[j].name !in b.store
    ensures fs[j].name in BuildFields(b, fs).store
    ensures BuildFields(b, fs).store[fs[j].name] == Str(fs[j].kind.options[0])
  {
    BuildFillsSelects(b, fs);
    BuildKeepsAnswers(b, fs);
    var n := fs[j].name;
    var i :| 0 <= i < |fs| && Defaultable(fs[i]) && fs[i].name == n && BuildFields(b, fs).store[n] == Str(fs[i].kind.options[0]);
    assert i == j;
  }

  /** Building over a store that already answers every select field leaves
      the store as it was. */
  lemma {:induction false} BuildOverFilledStore(b: Built, fs: seq<Field>)
    requires forall j :: 0 <= j < |fs| && Defaultable(fs[j]) ==> fs[j].name in b.store
    ensures BuildFields(b, fs).store == b.store
  {
    if fs != [] {
      BuildOverFilledStore(b, fs[..|fs| - 1]);
    }
  }

  /** Rendering twice stores nothing the first render did not. */
  lemma BuildIdempotent(b: Built, fs: seq<Field>)
    ensures BuildFields(BuildFields(b, fs), fs).store == BuildFields(b, fs).store
  {
    BuildFillsSelects(b, fs);
    BuildOverFilledStore(BuildFields(b, fs), fs);
  }

  /** With distinct names, each radio-pill field ends with the pills restored
      from the answer it had before render. */
  lemma {:induction false} BuildRestoresPills(b: Built, fs: seq<Field>, j: nat)
    requires DistinctNames(fs) && j < |fs| && fs[j].kind.RadioPill?
    ensures fs[j].name in BuildFields(b, fs).pills
    ensures BuildFields(b, fs).pills[fs[j].name] == RestoredPills(fs[j].kind.options, Lookup(b.store, fs[j].name))
  {
    var init := fs[..|fs| - 1];
    assert DistinctNames(init);
    var mid := BuildFields(b, init);
    var n := fs[j].name;
    BuildKeepsAnswers(b, init);
    if j < |fs| - 1 {
      BuildRestoresPills(b, init, j);
      assert fs[|fs| - 1].name != n;
    } else {
      assert forall i :: 0 <= i < |init| ==> init[i].name != n;
      assert Lookup(mid.store, n) == Lookup(b.store, n);
    }
  }

  /** The values of the selected options in option order, as
      `Array.from(input.selectedOptions).map(o => o.value)` yields them. */
  function SelectedValues(options: seq<string>, picked: seq<bool>): (vals: seq<string>)
    requires |picked| == |options|
    ensures |vals| <= |options|
    ensures forall x :: x in vals <==> exists k :: 0 <= k < |options| && picked[k] && options[k] == x
  {
    if options == [] then []
    else
      var rest := SelectedValues(options[1..], picked[1..]);
      assert forall k :: 1 <= k < |options| ==> options[1..][k - 1] == options[k] && picked[1..][k - 1] == picked[k];
      (if picked[0] then [options[0]] else []) + rest
  }

  /** Option order is kept: the selection of a split option list is the
      selection of the front part followed by that of the back part. */
  lemma {:induction false} SelectedValuesInOrder(o1: seq<string>, p1: seq<bool>, o2: seq<string>, p2: seq<bool>)
    requires |p1| == |o1| && |p2| == |o2|
    ensures SelectedValues(o1 + o2, p1 + p2) == SelectedValues(o1, p1) + SelectedValues(o2, p2)
  {
    if o1 != [] {
      assert (o1 + o2)[1..] == o1[1..] + o2;
      assert (p1 + p2)[1..] == p1[1..] + p2;
      SelectedValuesInOrder(o1[1..], p1[1..], o2, p2);
    } else {
      assert o1 + o2 == o2 && p1 + p2 == p2;
    }
  }
}
