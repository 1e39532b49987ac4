/** The reviewed schema dialect and its check at profile load (internal/catalog/vocabulary.go). */
module SchemaVocabulary {
  import opened Prelude
  import opened JsonValues

  const ENFORCED := {
    "type", "properties", "required", "additionalProperties", "items", "anyOf", "enum", "const", "minimum",
    "maximum", "minLength", "maxLength", "minItems", "maxItems", "pattern"
  }

  const ANNOTATIONS := {"title", "description", "examples", "default", "$schema", "$comment"}

  const TYPES := {"object", "array", "string", "boolean", "null", "number", "integer"}

  const MAX_BRANCHES := 16

  type Members = map<string, Json>

  // ---------------------------------------------------------------- what a checked schema is

  function Texts(items: seq<Json>): Option<seq<string>> {
    if items == [] then Some([])
    else if !items[|items| - 1].Str? then None
    else
      match Texts(items[..|items| - 1])
      case None => None
      case Some(before) => Some(before + [items[|items| - 1].text])
  }

  /** The type names a `type` value lists. */
  function TypeNames(j: Json): Option<seq<string>> {
    match j
    case Str(text) => Some([text])
    case Arr(items) => if items == [] then None else Texts(items)
    case _ => None
  }

  predicate Distinct(names: seq<string>) {
    forall i, j :: 0 <= i < j < |names| ==> names[i] != names[j]
  }

  predicate TypeOk(j: Json) {
    var names := TypeNames(j);
    names.Some? && (forall name :: name in names.value ==> name in TYPES) && Distinct(names.value)
  }

  predicate NamesOk(j: Json) {
    j.Arr? && Texts(j.items).Some? && "" !in Texts(j.items).value && Distinct(Texts(j.items).value)
  }

  predicate RequiredOk(m: Members) {
    "required" in m ==>
      NamesOk(m["required"]) &&
      ("properties" in m ==>
         m["properties"].Obj? && forall name :: name in Texts(m["required"].items).value ==> name in m["properties"].members)
  }

  predicate BoundOk(re: Engine, j: Json) {
    j.Number? && InRange(re, j)
  }

  predicate PairOk(m: Members, low: string, high: string) {
    low in m && high in m && m[low].Number? && m[high].Number? ==> Cmp(m[low], m[high]) <= 0
  }

  predicate CountOk(re: Engine, m: Members, name: string) {
    name in m ==> CountOf(re, m[name]).Some?
  }

  predicate NumberOk(re: Engine, m: Members, name: string) {
    name in m ==> BoundOk(re, m[name])
  }

  predicate TextOk(m: Members, name: string) {
    name in m ==> m[name].Str?
  }

  predicate CountsOk(re: Engine, m: Members) {
    CountOk(re, m, "minLength") && CountOk(re, m, "maxLength") && CountOk(re, m, "minItems") && CountOk(re, m, "maxItems")
  }

  predicate PairsOk(m: Members) {
    PairOk(m, "minLength", "maxLength") && PairOk(m, "minItems", "maxItems") && PairOk(m, "minimum", "maximum")
  }

  predicate AnnotationsOk(m: Members) {
    && TextOk(m, "title") && TextOk(m, "description") && TextOk(m, "$comment") && TextOk(m, "$schema")
    && ("examples" in m ==> m["examples"].Arr?)
  }

  predicate PatternOk(re: Engine, m: Members) {
    "pattern" in m ==> m["pattern"].Str? && m["pattern"].text != "" && re.compiles(m["pattern"].text)
  }

  /** The legal value of every keyword at one node. */
  predicate ValuesOk(re: Engine, m: Members) {
    && ("type" in m ==> TypeOk(m["type"]))
    && RequiredOk(m)
    && ("enum" in m ==> m["enum"].Arr? && m["enum"].items != [])
    && CountsOk(re, m)
    && NumberOk(re, m, "minimum") && NumberOk(re, m, "maximum")
    && PatternOk(re, m)
    && AnnotationsOk(m)
    && PairsOk(m)
  }

  predicate Known(name: string) {
    name in ENFORCED || name in ANNOTATIONS
  }

  /** A schema of the dialect: known keywords with legal values, and so for every schema in it. */
  predicate Checked(re: Engine, s: Json)
    decreases s
  {
    && s.Obj?
    && (forall name :: name in s.members ==> Known(name))
    && ValuesOk(re, s.members)
    && ("properties" in s.members ==>
          s.members["properties"].Obj? &&
          forall name :: name in s.members["properties"].members ==>
            name != "" && Checked(re, s.members["properties"].members[name]))
    && ("items" in s.members ==> Checked(re, s.members["items"]))
    && ("additionalProperties" in s.members ==>
          s.members["additionalProperties"].Bool? || Checked(re, s.members["additionalProperties"]))
    && ("anyOf" in s.members ==> BranchesOk(re, s.members["anyOf"]))
  }

  predicate BranchesOk(re: Engine, branches: Json)
    decreases branches
  {
    && branches.Arr? && 1 <= |branches.items| <= MAX_BRANCHES
    && forall i :: 0 <= i < |branches.items| ==> Checked(re, branches.items[i])
  }

  // ---------------------------------------------------------------- the check

  lemma {:induction false} TextsOf(items: seq<Json>, i: nat)
    requires i <= |items|
    ensures Texts(items).Some? ==> Texts(items[..i]).Some?
    ensures Texts(items).Some? <==> forall k :: 0 <= k < |items| ==> items[k].Str?
    ensures Texts(items).Some? ==>
      |Texts(items).value| == |items| && forall k :: 0 <= k < |items| ==> Texts(items).value[k] == items[k].text
    decreases |items|
  {
    if items == [] {
    } else {
      var before := items[..|items| - 1];
      TextsOf(before, if i < |items| then i else |before|);
      assert i < |items| ==> before[..i] == items[..i];
      assert i == |items| ==> items[..i] == items;
    }
  }

  /** requireUniqueStrings: the names, or None. */
  method RequireUniqueStrings(j: Json) returns (names: Option<seq<string>>)
    ensures names.Some? <==> NamesOk(j)
    ensures names.Some? ==> Some(names.value) == Texts(j.items)
  {
    if !j.Arr? {
      return None;
    }
    TextsOf(j.items, |j.items|);
    var texts: seq<string> := [];
    var seen: set<string> := {};
    for i := 0 to |j.items|
      invariant |texts| == i && forall k :: 0 <= k < i ==> j.items[k].Str? && texts[k] == j.items[k].text
      invariant seen == set t | t in texts
      invariant "" !in texts && Distinct(texts)
    {
      if !j.items[i].Str? {
        return None;
      }
      var text := j.items[i].text;
      if text == "" || text in seen {
        if text in seen {
          assert text in texts;
          var k :| 0 <= k < i && texts[k] == text;
          assert j.items[k].text == j.items[i].text;
        }
        return None;
      }
      seen := seen + {text};
      texts := texts + [text];
    }
    assert texts == Texts(j.items).value;
    return Some(texts);
  }

  method CheckTypeValue(j: Json) returns (ok: bool)
    ensures ok <==> TypeOk(j)
  {
    var names: seq<string> := [];
    if j.Arr? {
      if j.items == [] {
        return false;
      }
      TextsOf(j.items, |j.items|);
      for i := 0 to |j.items|
        invariant |names| == i && forall k :: 0 <= k < i ==> j.items[k].Str? && names[k] == j.items[k].text
      {
        if !j.items[i].Str? {
          return false;
        }
        names := names + [j.items[i].text];
      }
      assert names == Texts(j.items).value;
    } else {
      if !j.Str? {
        return false;
      }
      names := [j.text];
    }
    assert TypeNames(j) == Some(names);
    var seen: set<string> := {};
    for i := 0 to |names|
      invariant seen == set k | 0 <= k < i :: names[k]
      invariant forall k :: 0 <= k < i ==> names[k] in TYPES
      invariant forall k, l :: 0 <= k < l < i ==> names[k] != names[l]
    {
      if names[i] !in TYPES || names[i] in seen {
        assert names[i] in names;
        return false;
      }
      seen := seen + {names[i]};
    }
    return true;
  }

  method CheckPair(m: Members, low: string, high: string) returns (ok: bool)
    requires low in m ==> m[low].Number?
    requires high in m ==> m[high].Number?
    ensures ok <==> PairOk(m, low, high)
  {
    if low !in m || high !in m {
      return true;
    }
    return Cmp(m[low], m[high]) <= 0;
  }

  method CheckRequired(m: Members) returns (ok: bool)
    ensures ok <==> RequiredOk(m)
  {
    if "required" !in m {
      return true;
    }
    var names := RequireUniqueStrings(m["required"]);
    if names.None? {
      return false;
    }
    if "properties" !in m {
      return true;
    }
    if !m["properties"].Obj? {
      return false;
    }
    var declared := m["properties"].members;
    for i := 0 to |names.value|
      invariant forall k :: 0 <= k < i ==> names.value[k] in declared
    {
      if names.value[i] !in declared {
        assert names.value[i] in Texts(m["required"].items).value;
        return false;
      }
    }
    return true;
  }

  method CheckKeywordValues(re: Engine, m: Members) returns (ok: bool)
    ensures ok <==> ValuesOk(re, m)
  {
    if "type" in m {
      ok := CheckTypeValue(m["type"]);
      if !ok { return; }
    }
    ok := CheckRequired(m);
    if !ok { return; }
    if "enum" in m && (!m["enum"].Arr? || m["enum"].items == []) {
      return false;
    }
    if !CountsOk(re, m) || !NumberOk(re, m, "minimum") || !NumberOk(re, m, "maximum") {
      return false;
    }
    if !PatternOk(re, m) || !AnnotationsOk(m) {
      return false;
    }
    ok := CheckPair(m, "minLength", "maxLength");
    if !ok { return; }
    ok := CheckPair(m, "minItems", "maxItems");
    if !ok { return; }
    ok := CheckPair(m, "minimum", "maximum");
  }

  /** CheckSchemaVocabulary and checkNode: the members of a node are visited in any order. */
  method CheckNode(re: Engine, s: Json) returns (ok: bool)
    ensures ok <==> Checked(re, s)
    decreases s, 1
  {
    if !s.Obj? {
      return false;
    }
    var m := s.members;
    var left := m.Keys;
    while left != {}
      invariant left <= m.Keys
      invariant forall name :: name in m && name !in left ==> Known(name)
      decreases |left|
    {
      var name :| name in left;
      if !Known(name) {
        return false;
      }
      left := left - {name};
    }
    ok := CheckKeywordValues(re, m);
    if !ok { return; }
    if "properties" in m {
      ok := CheckProperties(re, m["properties"]);
      if !ok { return; }
    }
    if "items" in m {
      ok := CheckNode(re, m["items"]);
      if !ok { return; }
    }
    if "additionalProperties" in m && !m["additionalProperties"].Bool? {
      ok := CheckNode(re, m["additionalProperties"]);
      if !ok { return; }
    }
    if "anyOf" in m {
      ok := CheckAnyOf(re, m["anyOf"]);
      if !ok { return; }
    }
    return true;
  }

  method CheckProperties(re: Engine, props: Json) returns (ok: bool)
    ensures ok <==> props.Obj? && forall name :: name in props.members ==> name != "" && Checked(re, props.members[name])
    decreases props, 0
  {
    if !props.Obj? {
      return false;
    }
    var left := props.members.Keys;
    while left != {}
      invariant left <= props.members.Keys
      invariant forall name :: name in props.members && name !in left ==> name != "" && Checked(re, props.members[name])
      decreases |left|
    {
      var name :| name in left;
      if name == "" {
        return false;
      }
      ok := CheckNode(re, props.members[name]);
      if !ok { return; }
      left := left - {name};
    }
    return true;
  }

  method CheckAnyOf(re: Engine, branches: Json) returns (ok: bool)
    ensures ok <==> BranchesOk(re, branches)
    decreases branches, 0
  {
    if !branches.Arr? || |branches.items| == 0 || |branches.items| > MAX_BRANCHES {
      return false;
    }
    for i := 0 to |branches.items|
      invariant forall k :: 0 <= k < i ==> Checked(re, branches.items[k])
    {
      ok := CheckNode(re, branches.items[i]);
      if !ok { return; }
    }
    return true;
  }
}
