/** The plugin's settings store (`Settings` in settings/settings.ts): the
    stored values merged over the defaults at construction, plain reads and
    writes, and `getOrDefault`, which falls back to the default for a value
    lodash's `isEmpty` calls empty. */
module SettingsStore {
  import opened Wrappers

  /** A settings value as loaded from the plugin's data file. */
  datatype Value = Null | Bool(b: bool) | Str(s: string) | List(items: seq<Value>)

  const OpenGateCss: string :=
    "@media screen and (width <=991px) {\n    .container {\n      display: flex !important;\n"
    + "      flex-direction: column\n    }\n\n    #listcontainer {\n      order: 2;\n    }\n  }"

  /** `DEFAULT_SETTINGS`. Its `openGateTitle` is the plugin's name, which is
      defined outside this model and so is a parameter here. */
  function Defaults(pluginName: string): (r: map<string, Value>)
    ensures r.Keys == {"mode", "tools5eUrl", "homebrewRepoUrl", "hideIcons", "openGateId",
                       "openGateTitle", "openGateIcon", "openGateCss", "ignoredTags"}
    ensures r["openGateTitle"] == Str(pluginName)
    ensures !IsEmpty(r["mode"]) && !IsEmpty(r["tools5eUrl"]) && !IsEmpty(r["homebrewRepoUrl"])
            && !IsEmpty(r["openGateId"]) && !IsEmpty(r["openGateCss"])
    ensures IsEmpty(r["hideIcons"]) && IsEmpty(r["openGateIcon"]) && IsEmpty(r["ignoredTags"])
  {
    map[
      "mode" := Str("opengate"),
      "tools5eUrl" := Str("https://5e.tools/"),
      "homebrewRepoUrl" := Str("https://github.com/TheGiddyLimit/homebrew/master"),
      "hideIcons" := Bool(false),
      "openGateId" := Str("5etools"),
      "openGateTitle" := Str(pluginName),
      "openGateIcon" := Str(""),
      "openGateCss" := Str(OpenGateCss),
      "ignoredTags" := List([])
    ]
  }

  /** lodash `isEmpty` on a settings value: null and booleans count as
      empty, strings and arrays when they have no elements. */
  predicate IsEmpty(v: Value)
    ensures v.Null? || v.Bool? ==> IsEmpty(v)
    ensures v.Str? ==> (IsEmpty(v) <==> |v.s| == 0)
    ensures v.List? ==> (IsEmpty(v) <==> |v.items| == 0)
  {
    match v
    case Null => true
    case Bool(_) => true
    case Str(s) => s == ""
    case List(xs) => xs == []
  }

  /** `Object.assign({}, DEFAULT_SETTINGS, values)`; null loaded data adds nothing. */
  function Merge(defaults: map<string, Value>, loaded: Option<map<string, Value>>): (m: map<string, Value>)
    ensures forall key :: key in m <==> key in defaults || (loaded.Some? && key in loaded.value)
    ensures forall key :: loaded.Some? && key in loaded.value ==> m[key] == loaded.value[key]
    ensures forall key :: key in defaults && !(loaded.Some? && key in loaded.value) ==> m[key] == defaults[key]
  {
    match loaded
    case None => defaults
    case Some(m) => defaults + m
  }

  /** `values[key]`, None standing for undefined. */
  function Lookup(values: map<string, Value>, key: string): (r: Option<Value>)
    ensures r.Some? <==> key in values
    ensures r.Some? ==> r.value == values[key]
  {
    if key in values then Some(values[key]) else None
  }

  /** `getOrDefault` on given stored values and defaults. */
  function OrDefault(values: map<string, Value>, defaults: map<string, Value>, key: string): (r: Option<Value>)
    ensures key in values && !IsEmpty(values[key]) ==> r == Some(values[key])
    ensures !(key in values && !IsEmpty(values[key])) ==> r == Lookup(defaults, key)
    ensures key in defaults && !IsEmpty(defaults[key]) ==> r.Some? && !IsEmpty(r.value)
  {
    match Lookup(values, key)
    case Some(v) => if IsEmpty(v) then Lookup(defaults, key) else Some(v)
    case None => Lookup(defaults, key)
  }

  /** Every string default is non-empty except the icon (and the title when
      the plugin name is empty), so for those keys `getOrDefault` never
      answers an empty value; the boolean and list defaults are empty to
      lodash. */
  lemma DefaultsNonEmpty(pluginName: string, values: map<string, Value>, key: string)
    requires key in {"mode", "tools5eUrl", "homebrewRepoUrl", "openGateId", "openGateCss"}
    ensures key in Defaults(pluginName) && !IsEmpty(Defaults(pluginName)[key])
    ensures var r := OrDefault(values, Defaults(pluginName), key);
            r.Some? && r.value.Str? ==> r.value.s != ""
    ensures IsEmpty(Defaults(pluginName)["openGateTitle"]) <==> pluginName == ""
    ensures IsEmpty(Defaults(pluginName)["hideIcons"]) && IsEmpty(Defaults(pluginName)["ignoredTags"])
            && IsEmpty(Defaults(pluginName)["openGateIcon"])
  {
  }

  /** An empty stored tools URL reads as the default site. */
  lemma EmptyUrlFallsBack(pluginName: string, values: map<string, Value>)
    ensures OrDefault(values["tools5eUrl" := Str("")], Defaults(pluginName), "tools5eUrl")
            == Some(Str("https://5e.tools/"))
  {
  }

  /** A boolean setting is empty to lodash, so `getOrDefault` always answers
      the default for it. */
  lemma BooleanReadsDefault(values: map<string, Value>, defaults: map<string, Value>, key: string, b: bool)
    requires key in values && values[key] == Bool(b)
    ensures OrDefault(values, defaults, key) == Lookup(defaults, key)
  {
  }

  /** The stored values after a series of `set` calls, in order. */
  function ApplySets(values: map<string, Value>, sets: seq<(string, Value)>): map<string, Value>
  {
    if sets == [] then values
    else ApplySets(values, sets[..|sets| - 1])[sets[|sets| - 1].0 := sets[|sets| - 1].1]
  }

  /** A key no `set` touched keeps its earlier value. */
  lemma {:induction false} UnsetKeyKept(values: map<string, Value>, sets: seq<(string, Value)>, key: string)
    requires forall i :: 0 <= i < |sets| ==> sets[i].0 != key
    ensures Lookup(ApplySets(values, sets), key) == Lookup(values, key)
  {
    if sets != [] {
      var init := sets[..|sets| - 1];
      assert forall i :: 0 <= i < |init| ==> init[i] == sets[i];
      UnsetKeyKept(values, init, key);
    }
  }

  /** `values()` reflects every prior `set`: a key holds the value of its
      last `set`. */
  lemma {:induction false} LastSetWins(values: map<string, Value>, sets: seq<(string, Value)>, key: string, i: nat)
    requires i < |sets| && sets[i].0 == key
    requires forall j :: i < j < |sets| ==> sets[j].0 != key
    ensures Lookup(ApplySets(values, sets), key) == Some(sets[i].1)
  {
    if i < |sets| - 1 {
      var init := sets[..|sets| - 1];
      assert init[i] == sets[i];
      LastSetWins(values, init, key, i);
    }
  }

  class Settings {
    var values: map<string, Value>
    const defaults: map<string, Value>

    /** The stored values are the defaults overridden by the loaded data. */
    constructor(pluginName: string, loaded: Option<map<string, Value>>)
      ensures defaults == Defaults(pluginName)
      ensures values == Merge(Defaults(pluginName), loaded)
    {
      defaults := Defaults(pluginName);
      values := Merge(Defaults(pluginName), loaded);
    }

    /** `values()`: the stored values, as a copy. */
    method Values() returns (r: map<string, Value>)
      ensures forall k :: Lookup(r, k) == Get(k)
    {
      r := values;
    }

    /** `get(key)`: the stored value, None for undefined. */
    function Get(key: string): (r: Option<Value>)
      reads this
      ensures r.Some? <==> key in values
      ensures r.Some? ==> r.value == values[key]
    {
      Lookup(values, key)
    }

    /** `set(key, value)`: afterwards `get(key)` is `value` and every other
        key reads as before. */
    method Set(key: string, value: Value)
      modifies this`values
      ensures values == old(values)[key := value]
      ensures Get(key) == Some(value)
      ensures forall k :: k != key ==> Get(k) == old(Get(k))
    {
      values := values[key := value];
    }

    /** A series of `set(key, value)` calls, in order: the stored values
        become `ApplySets` of the old ones. */
    method SetAll(sets: seq<(string, Value)>)
      modifies this`values
      ensures values == ApplySets(old(values), sets)
    {
      var i := 0;
      while i < |sets|
        invariant 0 <= i <= |sets|
        invariant values == ApplySets(old(values), sets[..i])
      {
        assert sets[..i + 1][..i] == sets[..i];
        Set(sets[i].0, sets[i].1);
        i := i + 1;
      }
      assert sets[..i] == sets;
    }

    /** `getOrDefault(key)`: the stored value when it is non-empty, else the
        default. */
    function GetOrDefault(key: string): (r: Option<Value>)
      reads this
      ensures key in values && !IsEmpty(values[key]) ==> r == Some(values[key])
      ensures !(key in values && !IsEmpty(values[key])) ==> r == Lookup(defaults, key)
    {
      OrDefault(values, defaults, key)
    }
  }
}
