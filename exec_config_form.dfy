/** The exec-config form: the last config that parsed, the switch of one named
    parameter or criterion, and the tag inputs that replace a whole field.
    Every change is emitted as the text `updateYamlField` makes from the
    current content, which parses it again, sets one top-level field and
    serializes the result. The YAML parser and serializer are the parameters
    `parse` and `stringify`. */
module ExecConfigForm {
  import opened Wrappers
  import opened YamlValue

  const TypeError := "TypeError"

  /** The keys of `ExecConfig`, the only fields `updateYamlField` is typed to take. */
  const ConfigFields: set<string> := {"version", "difficulties", "areas", "languages", "parameters", "criteria", "llms"}

  /** `updateYamlField(content, field, value)`: a parse error throws, and so
      does the property write on a document that is `null` or a scalar (module
      code is strict). An object document gets exactly that field set. An
      array takes the write as a named property, which the serializer does
      not write, so the array is written unchanged. */
  function UpdateYamlField(parse: string -> Result<Value, string>, stringify: Value -> string,
                           content: string, field: string, value: Value): (r: Result<string, string>)
    requires field in ConfigFields
    ensures r.Success? <==> parse(content).Success? && (parse(content).value.Obj? || parse(content).value.List?)
    ensures r.Success? && parse(content).value.Obj? ==> r.value == stringify(Obj(parse(content).value.fields[field := value]))
    ensures r.Success? && parse(content).value.List? ==> r.value == stringify(parse(content).value)
  {
    var doc := parse(content);
    if doc.Failure? then Failure(doc.error)
    else if doc.value.Obj? then Success(stringify(Obj(doc.value.fields[field := value])))
    else if doc.value.List? then Success(stringify(doc.value))
    else Failure(TypeError)
  }

  /** The document `updateYamlField` serializes differs from the parsed one
      in the given field only. */
  lemma UpdateYamlFieldOnlyField(doc: map<string, Value>, field: string, value: Value)
    ensures Get(Obj(doc[field := value]), field) == value
    ensures forall k :: k != field ==> Get(Obj(doc[field := value]), k) == Get(Obj(doc), k)
    ensures doc[field := value].Keys == doc.Keys + {field}
  {
  }

  /** `items.findIndex(item => item.name === name)`, scanning from `from`:
      the first item named `name`, or none; reading `name` of a null item
      throws. */
  function FindIndex(items: seq<Value>, name: string, from: nat): (r: Result<Option<nat>, string>)
    requires from <= |items|
    ensures r.Success? && r.value.Some? ==>
              from <= r.value.value < |items| && Get(items[r.value.value], "name") == Str(name)
              && forall j :: from <= j < r.value.value ==> items[j] != Null && Get(items[j], "name") != Str(name)
    ensures r == Success(None) <==>
              forall j :: from <= j < |items| ==> items[j] != Null && Get(items[j], "name") != Str(name)
    ensures r.Failure? ==>
              exists j :: from <= j < |items| && items[j] == Null
                          && forall k :: from <= k < j ==> Get(items[k], "name") != Str(name)
    decreases |items| - from
  {
    if from == |items| then Success(None)
    else if items[from] == Null then Failure(TypeError)
    else if Get(items[from], "name") == Str(name) then Success(Some(from))
    else FindIndex(items, name, from + 1)
  }

  /** `items[index] = {...items[index], enabled}`. */
  function Switched(items: seq<Value>, index: nat, enabled: bool): (r: seq<Value>)
    requires index < |items|
    ensures |r| == |items|
    ensures forall j :: 0 <= j < |items| && j != index ==> r[j] == items[j]
    ensures Get(r[index], "enabled") == Bool(enabled)
    ensures forall k :: k != "enabled" ==> Get(r[index], k) == Get(items[index], k)
  {
    items[index := Obj(SpreadFields(items[index])["enabled" := Bool(enabled)])]
  }

  /** `handleSwitchChange`: what is emitted for a switch of the item `name`
      of a section; `None` when nothing is emitted, because the section is
      not a list, no item has the name, or a step throws. */
  function SwitchChange(parse: string -> Result<Value, string>, stringify: Value -> string,
                        config: Value, content: string, section: string, name: string, enabled: bool): (emitted: Option<string>)
    requires section == "parameters" || section == "criteria"
    ensures !Get(config, section).List? ==> emitted == None
    ensures Get(config, section).List? && FindIndex(Get(config, section).items, name, 0) == Success(None) ==> emitted == None
    ensures emitted.Some? ==>
              Get(config, section).List?
              && var items := Get(config, section).items;
              && FindIndex(items, name, 0).Success? && FindIndex(items, name, 0).value.Some?
              && var i := FindIndex(items, name, 0).value.value;
              && i < |items|
              && UpdateYamlField(parse, stringify, content, section, List(Switched(items, i, enabled))) == Success(emitted.value)
  {
    var list := Get(config, section);
    if !list.List? then None
    else
      var found := FindIndex(list.items, name, 0);
      if found.Failure? || found.value.None? then None
      else
        var updated := UpdateYamlField(parse, stringify, content, section, List(Switched(list.items, found.value.value, enabled)));
        if updated.Failure? then None else Some(updated.value)
  }

  /** A switch of a name that is on the list toggles exactly the first item
      with that name, when the content parses to an object. */
  lemma SwitchChangeFirstMatch(parse: string -> Result<Value, string>, stringify: Value -> string,
                               config: Value, content: string, section: string, name: string, enabled: bool, i: nat)
    requires section == "parameters" || section == "criteria"
    requires Get(config, section).List? && i < |Get(config, section).items|
    requires Get(Get(config, section).items[i], "name") == Str(name)
    requires forall j :: 0 <= j < i ==> Get(config, section).items[j] != Null && Get(Get(config, section).items[j], "name") != Str(name)
    requires parse(content).Success? && parse(content).value.Obj?
    ensures SwitchChange(parse, stringify, config, content, section, name, enabled)
            == Some(stringify(Obj(parse(content).value.fields[section := List(Switched(Get(config, section).items, i, enabled))])))
  {
  }

  /** `handleArrayChange`: the field is replaced by the given values. */
  function ArrayChange(parse: string -> Result<Value, string>, stringify: Value -> string,
                       content: string, field: string, values: seq<string>): (r: Result<string, string>)
    requires field in ConfigFields
    ensures r.Success? <==> parse(content).Success? && (parse(content).value.Obj? || parse(content).value.List?)
    ensures r.Success? && parse(content).value.Obj? ==>
              r.value == stringify(Obj(parse(content).value.fields[field := List(Strings(values))]))
  {
    UpdateYamlField(parse, stringify, content, field, List(Strings(values)))
  }

  function Strings(values: seq<string>): (r: seq<Value>)
    ensures |r| == |values| && forall i :: 0 <= i < |values| ==> r[i] == Str(values[i])
    decreases |values|
  {
    if values == [] then [] else Strings(values[..|values| - 1]) + [Str(values[|values| - 1])]
  }

  /** The form's own state: the config of the last content that parsed. */
  class Form {
    var config: Option<Value>

    constructor ()
      ensures config == None
    {
      config := None;
    }

    /** The parse effect: a parse error keeps the previous config; anything
        that parses, even `null`, replaces it. */
    method ParseEffect(parsed: Result<Value, string>)
      modifies this
      ensures parsed.Failure? ==> config == old(config)
      ensures parsed.Success? ==> config == Some(parsed.value)
      ensures parsed.Success? ==> (Renders() <==> Truthy(parsed.value))
      ensures parsed.Failure? ==> (Renders() <==> old(Renders()))
    {
      if parsed.Success? {
        config := Some(parsed.value);
      }
    }

    /** The form renders nothing while the config is missing or falsy. */
    predicate Renders()
      reads this
    {
      config.Some? && Truthy(config.value)
    }
  }
}
