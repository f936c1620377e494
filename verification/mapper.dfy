/** `mapInputDataToPerson` of src/utils/Utils.ts: builds the Pipedrive person
    record from an input document and an ordered list of field mappings. */
module Mapper {
  import opened Wrappers
  import opened Json
  import opened Paths
  import opened Nested

  /** One `{inputKey, pipedriveKey}` entry of the mapping table. */
  datatype FieldMapping = FieldMapping(inputKey: string, pipedriveKey: string)

  /** The errors `mapInputDataToPerson` throws, with their messages. */
  datatype MapError =
    | InputDataRequired
    | NoNameMapping
    | NameValueNotFound(path: string)
  {
    function Message(): string {
      match this
      case InputDataRequired => "Input data is required"
      case NoNameMapping =>
        "No mapping found for 'name' field - name mapping is required for person lookup"
      case NameValueNotFound(path) => "Name value not found in inputData using path: " + path
    }
  }

  /** `i` is the index of the mapping `mappings.find(m => m.pipedriveKey === "name")` returns. */
  ghost predicate FirstNameAt(mappings: seq<FieldMapping>, i: int) {
    && 0 <= i < |mappings|
    && mappings[i].pipedriveKey == "name"
    && forall j :: 0 <= j < i ==> mappings[j].pipedriveKey != "name"
  }

  /** The index of the first mapping whose target is `name`, if any. */
  function FindNameMapping(mappings: seq<FieldMapping>): (r: Option<nat>)
    ensures r.Some? ==> FirstNameAt(mappings, r.value)
    ensures r.None? ==> forall j :: 0 <= j < |mappings| ==> mappings[j].pipedriveKey != "name"
    decreases |mappings|
  {
    if |mappings| == 0 then None
    else if mappings[0].pipedriveKey == "name" then Some(0)
    else
      match FindNameMapping(mappings[1..])
      case None => None
      case Some(i) => Some(i + 1)
  }

  predicate IsContactKey(key: string) {
    key == "email" || key == "phone"
  }

  /** `[{value: String(v), primary: true}]`, the shape Pipedrive expects for
      `email` and `phone`. */
  function ContactList(v: Value): Value {
    Arr([Obj(map["value" := Str(Stringify(v)), "primary" := Bool(true)])])
  }

  /** The contact entry keeps only the text of the value: two values give
      the same entry exactly when `String` prints them alike. */
  lemma ContactListKeepsText(u: Value, v: Value)
    ensures ContactList(u) == ContactList(v) <==> Stringify(u) == Stringify(v)
  {
    if ContactList(u) == ContactList(v) {
      var eu := map["value" := Str(Stringify(u)), "primary" := Bool(true)];
      var ev := map["value" := Str(Stringify(v)), "primary" := Bool(true)];
      assert Obj(eu) == ContactList(u).items[0] == ContactList(v).items[0] == Obj(ev);
      assert eu["value"] == ev["value"];
    }
  }

  /** One iteration of the mapping loop: skip an `undefined` input value,
      replace `email` or `phone` wholesale, and write anything else through
      the nested setter. */
  function Apply(input: Value, person: map<string, Value>, mapping: FieldMapping): (r: map<string, Value>)
    ensures person.Keys <= r.Keys
    ensures WriteOf(input, mapping).None? ==> r == person
    ensures WriteOf(input, mapping).Some? ==>
      Walk(Obj(r), WriteOf(input, mapping).value.keys) == Some(WriteOf(input, mapping).value.value)
  {
    match Get(Some(input), mapping.inputKey)
    case None => person
    case Some(v) =>
      if mapping.pipedriveKey == "email" then person["email" := ContactList(v)]
      else if mapping.pipedriveKey == "phone" then person["phone" := ContactList(v)]
      else
        SetReadBack(person, mapping.pipedriveKey, v);
        Set(person, mapping.pipedriveKey, v)
  }

  lemma SetReadBack(person: map<string, Value>, path: string, v: Value)
    ensures Segments(path).Some? ==> Walk(Obj(Set(person, path, v)), Segments(path).value) == Some(v)
  {
    if Segments(path).Some? {
      GetAfterSet(person, path, v);
    }
  }

  /** The mapping loop over all mappings, in order, from `{}`. */
  function ApplyAll(input: Value, mappings: seq<FieldMapping>): (r: map<string, Value>)
    ensures |mappings| > 0 && WriteOf(input, mappings[|mappings| - 1]).Some? ==>
      var w := WriteOf(input, mappings[|mappings| - 1]).value;
      Walk(Obj(r), w.keys) == Some(w.value)
    decreases |mappings|
  {
    if |mappings| == 0 then map[]
    else Apply(input, ApplyAll(input, mappings[..|mappings| - 1]), mappings[|mappings| - 1])
  }

  /** `mapInputDataToPerson(inputData, mappings)`. */
  function MapInputDataToPerson(input: Value, mappings: seq<FieldMapping>): (r: Result<map<string, Value>, MapError>)
    ensures Falsy(input) ==> r == Err(InputDataRequired)
    ensures !Falsy(input) && (forall j :: 0 <= j < |mappings| ==> mappings[j].pipedriveKey != "name") ==>
      r == Err(NoNameMapping)
    ensures r.Ok? ==> r.value == ApplyAll(input, mappings)
  {
    if Falsy(input) then Err(InputDataRequired)
    else
      match FindNameMapping(mappings)
      case None => Err(NoNameMapping)
      case Some(i) =>
        var nameMapping := mappings[i];
        if !Truthy(Get(Some(input), nameMapping.inputKey)) then Err(NameValueNotFound(nameMapping.inputKey))
        else Ok(ApplyAll(input, mappings))
  }

  /** Fail-fast on the name: with a name mapping in place, the mapping
      succeeds exactly when the first one reads a truthy value (so a
      non-string name such as `1` or `{}` passes, and `""`, `0`, `false`,
      `null` or a missing value fails, naming the path it read). */
  lemma MapNameCheck(input: Value, mappings: seq<FieldMapping>, i: nat)
    requires !Falsy(input) && FirstNameAt(mappings, i)
    ensures var r := MapInputDataToPerson(input, mappings);
      && (r.Ok? <==> Truthy(Get(Some(input), mappings[i].inputKey)))
      && (r.Err? ==> r.error == NameValueNotFound(mappings[i].inputKey))
  {
  }

  // ---------------------------------------------------------------------------
  // Every write is a nested write

  /** One nested write: a key path and the value to store there. */
  datatype Write = Write(keys: seq<string>, value: Value)

  /** The keys a mapping writes: its target key alone for `email` and
      `phone`, the keys of its dotted target otherwise. */
  function Target(mapping: FieldMapping): Option<seq<string>> {
    if IsContactKey(mapping.pipedriveKey) then Some([mapping.pipedriveKey])
    else Segments(mapping.pipedriveKey)
  }

  /** The value a mapping writes for an input value. */
  function Written(mapping: FieldMapping, v: Value): Value {
    if IsContactKey(mapping.pipedriveKey) then ContactList(v) else v
  }

  /** What a mapping writes: nothing when its input value is `undefined` or
      its target path is rejected. */
  function WriteOf(input: Value, mapping: FieldMapping): (r: Option<Write>)
    ensures r.Some? ==> |r.value.keys| > 0
  {
    match Get(Some(input), mapping.inputKey)
    case None => None
    case Some(v) =>
      match Target(mapping)
      case None => None
      case Some(keys) => Some(Write(keys, Written(mapping, v)))
  }

  function Perform(person: map<string, Value>, w: Option<Write>): map<string, Value> {
    match w
    case None => person
    case Some(Write(keys, v)) => if |keys| == 0 then person else SetPath(person, keys, v)
  }

  /** The writes of all mappings, in order. */
  function WritesOf(input: Value, mappings: seq<FieldMapping>): seq<Option<Write>> {
    seq(|mappings|, i requires 0 <= i < |mappings| => WriteOf(input, mappings[i]))
  }

  function PerformAll(ws: seq<Option<Write>>): map<string, Value>
    decreases |ws|
  {
    if |ws| == 0 then map[] else Perform(PerformAll(ws[..|ws| - 1]), ws[|ws| - 1])
  }

  /** One loop iteration performs the mapping's nested write: the direct
      assignment of `email` and `phone` is a write along a one-key path. */
  lemma ApplyIsWrite(input: Value, person: map<string, Value>, mapping: FieldMapping)
    ensures Apply(input, person, mapping) == Perform(person, WriteOf(input, mapping))
  {
  }

  lemma {:induction false} ApplyAllIsPerformAll(input: Value, mappings: seq<FieldMapping>)
    ensures ApplyAll(input, mappings) == PerformAll(WritesOf(input, mappings))
    decreases |mappings|
  {
    if |mappings| > 0 {
      var n := |mappings| - 1;
      var ws := WritesOf(input, mappings);
      assert ws[..n] == WritesOf(input, mappings[..n]);
      ApplyAllIsPerformAll(input, mappings[..n]);
      ApplyIsWrite(input, ApplyAll(input, mappings[..n]), mappings[n]);
    }
  }

  /** The write stores something under the top-level key `k`. */
  predicate WritesUnder(w: Option<Write>, k: string) {
    w.Some? && |w.value.keys| > 0 && w.value.keys[0] == k
  }

  /** The writes add exactly their first keys. */
  lemma {:induction false} PerformAllKeys(ws: seq<Option<Write>>, k: string)
    ensures k in PerformAll(ws) <==> exists i :: 0 <= i < |ws| && WritesUnder(ws[i], k)
    decreases |ws|
  {
    if |ws| > 0 {
      var n := |ws| - 1;
      var init := ws[..n];
      PerformAllKeys(init, k);
      if exists i :: 0 <= i < |ws| && WritesUnder(ws[i], k) {
        var i :| 0 <= i < |ws| && WritesUnder(ws[i], k);
        if i < n {
          assert init[i] == ws[i];
        }
      }
      if k in PerformAll(init) {
        var i :| 0 <= i < |init| && WritesUnder(init[i], k);
        assert ws[i] == init[i];
      }
    }
  }

  /** A write survives later writes to paths unrelated to its own. */
  lemma {:induction false} PerformAllLastWrite(ws: seq<Option<Write>>, i: nat)
    requires i < |ws| && ws[i].Some? && |ws[i].value.keys| > 0
    requires forall j :: i < j < |ws| && ws[j].Some? ==> !Comparable(ws[i].value.keys, ws[j].value.keys)
    ensures At(PerformAll(ws), ws[i].value.keys, ws[i].value.value)
    decreases |ws|
  {
    var n := |ws| - 1;
    var init := ws[..n];
    var before := PerformAll(init);
    var p := ws[i].value.keys;
    if i == n {
      SetPathAt(before, p, ws[i].value.value);
    } else {
      assert init[i] == ws[i];
      forall j | i < j < |init| && init[j].Some?
        ensures !Comparable(p, init[j].value.keys)
      {
        assert init[j] == ws[j];
      }
      PerformAllLastWrite(init, i);
      if ws[n].Some? && |ws[n].value.keys| > 0 {
        AtPreserved(before, p, ws[i].value.value, ws[n].value.keys, ws[n].value.value);
      }
    }
  }

  /** The mapping reads a defined value (possibly `null`) and has somewhere to write it. */
  predicate Writes(input: Value, mapping: FieldMapping) {
    Get(Some(input), mapping.inputKey).Some? && Target(mapping).Some?
  }

  /** The mapping writes something whose top-level key is `k`. */
  predicate WritesKey(input: Value, mapping: FieldMapping, k: string) {
    Writes(input, mapping) && Target(mapping).value[0] == k
  }

  /** The output holds exactly the top-level keys of the mappings that read a
      defined value: `undefined` is skipped, `null` is written. */
  lemma ApplyAllKeys(input: Value, mappings: seq<FieldMapping>, k: string)
    ensures k in ApplyAll(input, mappings) <==>
      exists i :: 0 <= i < |mappings| && WritesKey(input, mappings[i], k)
  {
    var ws := WritesOf(input, mappings);
    ApplyAllIsPerformAll(input, mappings);
    PerformAllKeys(ws, k);
    forall i | 0 <= i < |mappings|
      ensures WritesUnder(ws[i], k) <==> WritesKey(input, mappings[i], k)
    {
      WriteOfKey(input, mappings[i], k);
    }
  }

  lemma WriteOfKey(input: Value, mapping: FieldMapping, k: string)
    ensures WritesUnder(WriteOf(input, mapping), k) <==> WritesKey(input, mapping, k)
  {
  }

  /** Last write wins: what a mapping writes is what the output holds at its
      target, unless a later mapping writes to a path that contains or
      extends that target. */
  lemma ApplyAllLastWrite(input: Value, mappings: seq<FieldMapping>, i: nat, v: Value, p: seq<string>)
    requires i < |mappings|
    requires Get(Some(input), mappings[i].inputKey) == Some(v)
    requires Target(mappings[i]) == Some(p)
    requires forall j :: i < j < |mappings| && Writes(input, mappings[j]) ==>
      !Comparable(p, Target(mappings[j]).value)
    ensures At(ApplyAll(input, mappings), p, Written(mappings[i], v))
  {
    var ws := WritesOf(input, mappings);
    ApplyAllIsPerformAll(input, mappings);
    assert ws[i] == WriteOf(input, mappings[i]) == Some(Write(p, Written(mappings[i], v)));
    forall j | i < j < |ws| && ws[j].Some?
      ensures !Comparable(p, ws[j].value.keys)
    {
      WriteOfDefined(input, mappings[j]);
    }
    PerformAllLastWrite(ws, i);
  }

  /** A mapping writes exactly when it reads a defined value and has a target,
      and then it writes along that target. */
  lemma WriteOfDefined(input: Value, mapping: FieldMapping)
    ensures WriteOf(input, mapping).Some? <==> Writes(input, mapping)
    ensures WriteOf(input, mapping).Some? ==> WriteOf(input, mapping).value.keys == Target(mapping).value
  {
  }

  /** The keys of a successful mapping are exactly those written by mappings
      whose input value is defined. */
  lemma MapKeys(input: Value, mappings: seq<FieldMapping>, k: string)
    requires MapInputDataToPerson(input, mappings).Ok?
    ensures k in MapInputDataToPerson(input, mappings).value <==>
      exists i :: 0 <= i < |mappings| && WritesKey(input, mappings[i], k)
  {
    ApplyAllKeys(input, mappings, k);
  }
  /** Reading the output at a mapping's target gives what that mapping
      wrote, when no later mapping overwrites it. */
  lemma MapLastWriteWins(input: Value, mappings: seq<FieldMapping>, i: nat, v: Value, p: seq<string>)
    requires MapInputDataToPerson(input, mappings).Ok?
    requires i < |mappings|
    requires Get(Some(input), mappings[i].inputKey) == Some(v)
    requires Target(mappings[i]) == Some(p)
    requires forall j :: i < j < |mappings| && Writes(input, mappings[j]) ==>
      !Comparable(p, Target(mappings[j]).value)
    ensures Walk(Obj(MapInputDataToPerson(input, mappings).value), p) == Some(Written(mappings[i], v))
  {
    ApplyAllLastWrite(input, mappings, i, v, p);
    AtWalk(ApplyAll(input, mappings), p, Written(mappings[i], v));
  }

  /** The last defined `email` (or `phone`) mapping decides that key, as a
      one-element primary list holding the value's string form, unless a
      later mapping writes under that key through the nested setter. */
  lemma MapContactLastWins(input: Value, mappings: seq<FieldMapping>, i: nat, v: Value)
    requires MapInputDataToPerson(input, mappings).Ok?
    requires i < |mappings| && IsContactKey(mappings[i].pipedriveKey)
    requires Get(Some(input), mappings[i].inputKey) == Some(v)
    requires forall j :: i < j < |mappings| && Writes(input, mappings[j]) ==>
      Target(mappings[j]).value[0] != mappings[i].pipedriveKey
    ensures var out := MapInputDataToPerson(input, mappings).value;
      mappings[i].pipedriveKey in out && out[mappings[i].pipedriveKey] == ContactList(v)
  {
    var key := mappings[i].pipedriveKey;
    forall j | i < j < |mappings| && Writes(input, mappings[j])
      ensures !Comparable([key], Target(mappings[j]).value)
    {
      OtherFirstKey(key, Target(mappings[j]).value);
    }
    ApplyAllLastWrite(input, mappings, i, v, [key]);
    assert Written(mappings[i], v) == ContactList(v);
  }

  lemma OtherFirstKey(key: string, q: seq<string>)
    requires |q| > 0 && q[0] != key
    ensures !Comparable([key], q)
  {
  }

  // ---------------------------------------------------------------------------
  // Examples

  /** As with `{contact: {first: "Jo"}}` mapped by `contact.first -> name`
      and `contact.email -> email`: a missing email is skipped, not written,
      and the output is just the name. */
  lemma MissingEmailSkipped(input: Value, namePath: string, emailPath: string, name: Value)
    requires !Falsy(input) && !Falsy(name)
    requires Get(Some(input), namePath) == Some(name)
    requires Get(Some(input), emailPath) == None
    ensures MapInputDataToPerson(input, [FieldMapping(namePath, "name"), FieldMapping(emailPath, "email")])
      == Ok(map["name" := name])
  {
    var mappings := [FieldMapping(namePath, "name"), FieldMapping(emailPath, "email")];
    NameFirst(input, mappings, name);
  }

  /** A two-mapping table whose first entry reads a truthy name succeeds, and
      its first entry writes the name. */
  lemma NameFirst(input: Value, mappings: seq<FieldMapping>, name: Value)
    requires !Falsy(input) && !Falsy(name)
    requires |mappings| == 2 && mappings[0].pipedriveKey == "name"
    requires Get(Some(input), mappings[0].inputKey) == Some(name)
    ensures MapInputDataToPerson(input, mappings) == Ok(Apply(input, map["name" := name], mappings[1]))
  {
    assert FindNameMapping(mappings) == Some(0);
    var init := mappings[..1];
    assert init[..0] == [];
    assert init[0] == mappings[0];
    assert ApplyAll(input, init) == Apply(input, map[], mappings[0]);
    NameStep(input, mappings[0], name);
  }

  lemma NameStep(input: Value, mapping: FieldMapping, name: Value)
    requires mapping.pipedriveKey == "name"
    requires Get(Some(input), mapping.inputKey) == Some(name)
    ensures Apply(input, map[], mapping) == map["name" := name]
  {
    NameKeyExample();
    SetSingleKey(map[], "name", name);
  }

  lemma NameKeyExample()
    ensures Segments("name") == Some(["name"])
  {
    SegmentsOfJoin(["name"]);
  }

  lemma SetSingleKey(m: map<string, Value>, k: string, v: Value)
    requires Segments(k) == Some([k])
    ensures Set(m, k, v) == m[k := v]
  {
  }

  /** As with `{phone: "555-1234"}` mapped by `phone -> phone` (next to the
      required name mapping): the number becomes a one-element primary list. */
  lemma PhoneWrapped(input: Value, namePath: string, phonePath: string, name: Value, phone: string)
    requires !Falsy(input) && !Falsy(name)
    requires Get(Some(input), namePath) == Some(name)
    requires Get(Some(input), phonePath) == Some(Str(phone))
    ensures MapInputDataToPerson(input, [FieldMapping(namePath, "name"), FieldMapping(phonePath, "phone")])
      == Ok(map["name" := name, "phone" := Arr([Obj(map["value" := Str(phone), "primary" := Bool(true)])])])
  {
    var mappings := [FieldMapping(namePath, "name"), FieldMapping(phonePath, "phone")];
    NameFirst(input, mappings, name);
    PhoneStep(input, map["name" := name], mappings[1], phone);
  }

  lemma PhoneStep(input: Value, person: map<string, Value>, mapping: FieldMapping, phone: string)
    requires mapping.pipedriveKey == "phone"
    requires Get(Some(input), mapping.inputKey) == Some(Str(phone))
    ensures Apply(input, person, mapping)
      == person["phone" := Arr([Obj(map["value" := Str(phone), "primary" := Bool(true)])])]
  {
    assert Stringify(Str(phone)) == phone;
  }
}
