/** Validation of a JSON value against a pinned schema (internal/catalog/validate.go). */
module SchemaValidation {
  import opened Prelude
  import opened JsonValues
  import opened SchemaVocabulary

  // ---------------------------------------------------------------- what a schema means

  function Kind(v: Json): string {
    match v
    case Null => "null"
    case Bool(_) => "boolean"
    case Number(_, _) => "number"
    case Str(_) => "string"
    case Arr(_) => "array"
    case Obj(_) => "object"
  }

  /** A value of a type; an integer is a number with an integral value, however it is written. */
  ghost predicate IsOf(re: Engine, name: string, v: Json) {
    if name == "integer" then v.Number? && InRange(re, v) && exists k: int :: Denotes(v, k)
    else Kind(v) == name
  }

  ghost predicate HasType(re: Engine, m: Members, v: Json)
    requires "type" in m ==> TypeOk(m["type"])
  {
    "type" in m ==> exists name :: name in TypeNames(m["type"]).value && IsOf(re, name, v)
  }

  ghost predicate InEnum(re: Engine, m: Members, v: Json) {
    "enum" in m && m["enum"].Arr? ==> exists i :: 0 <= i < |m["enum"].items| && SameValue(re, v, m["enum"].items[i])
  }

  ghost predicate IsConst(re: Engine, m: Members, v: Json) {
    "const" in m ==> SameValue(re, v, m["const"])
  }

  /** A length within the bounds; a bound denotes its integer, however it is written. */
  predicate Within(re: Engine, m: Members, low: string, high: string, length: nat) {
    && (low in m && m[low].Number? ==> Cmp(m[low], Number(length, 0)) <= 0)
    && (high in m && m[high].Number? ==> Cmp(Number(length, 0), m[high]) <= 0)
  }

  predicate TextAdmitted(re: Engine, m: Members, text: string) {
    && Within(re, m, "minLength", "maxLength", |text|)
    && ("pattern" in m && m["pattern"].Str? ==> re.matches(m["pattern"].text, text))
  }

  predicate NumberAdmitted(re: Engine, m: Members, v: Json)
    requires v.Number?
  {
    && ("minimum" in m || "maximum" in m ==> InRange(re, v))
    && ("minimum" in m && m["minimum"].Number? ==> Cmp(m["minimum"], v) <= 0)
    && ("maximum" in m && m["maximum"].Number? ==> Cmp(v, m["maximum"]) <= 0)
  }

  function Declared(m: Members): map<string, Json> {
    if "properties" in m && m["properties"].Obj? then m["properties"].members else map[]
  }

  /** The meaning of the dialect: every keyword present must hold of the value; keywords for
      one kind of value say nothing about others. */
  ghost predicate Admits(re: Engine, s: Json, v: Json)
    requires Checked(re, s)
    decreases s, 1
  {
    var m := s.members;
    && HasType(re, m, v)
    && SomeBranchAdmits(re, s, v)
    && (v.Obj? ==> RequiredPresent(m, v) && PropertiesAdmitted(re, s, v) && OthersAdmitted(re, s, v))
    && (v.Arr? ==> Within(re, m, "minItems", "maxItems", |v.items|) && ItemsAdmitted(re, s, v))
    && (v.Str? ==> TextAdmitted(re, m, v.text))
    && (v.Number? ==> NumberAdmitted(re, m, v))
    && IsConst(re, m, v)
    && InEnum(re, m, v)
  }

  ghost predicate SomeBranchAdmits(re: Engine, s: Json, v: Json)
    requires Checked(re, s)
    decreases s, 0
  {
    "anyOf" in s.members ==>
      assert BranchesOk(re, s.members["anyOf"]);
      exists i :: 0 <= i < |s.members["anyOf"].items| && Admits(re, s.members["anyOf"].items[i], v)
  }

  ghost predicate RequiredPresent(m: Members, v: Json)
    requires v.Obj? && RequiredOk(m)
  {
    "required" in m ==> forall name :: name in Texts(m["required"].items).value ==> name in v.members
  }

  ghost predicate PropertiesAdmitted(re: Engine, s: Json, v: Json)
    requires Checked(re, s) && v.Obj?
    decreases s, 0
  {
    "properties" in s.members ==>
      forall name :: name in s.members["properties"].members && name in v.members ==>
        Admits(re, s.members["properties"].members[name], v.members[name])
  }

  ghost predicate OthersAdmitted(re: Engine, s: Json, v: Json)
    requires Checked(re, s) && v.Obj?
    decreases s, 0
  {
    "additionalProperties" in s.members ==>
      var other := s.members["additionalProperties"];
      forall name :: name in v.members && name !in Declared(s.members) ==>
        if other.Bool? then other.value else Admits(re, other, v.members[name])
  }

  ghost predicate ItemsAdmitted(re: Engine, s: Json, v: Json)
    requires Checked(re, s) && v.Arr?
    decreases s, 0
  {
    "items" in s.members ==> forall i :: 0 <= i < |v.items| ==> Admits(re, s.members["items"], v.items[i])
  }

  // ---------------------------------------------------------------- the decoded schema

  /** schemaView: absent and null members leave the zero value, except where raw JSON is kept. */
  datatype View = View(
    types: Option<Json>, properties: map<string, Json>, required: seq<string>, additional: Option<Json>,
    items: Option<Json>, options: seq<Json>, constant: Option<Json>, minimum: Option<Json>, maximum: Option<Json>,
    minLength: Option<int>, maxLength: Option<int>, minItems: Option<int>, maxItems: Option<int>,
    pattern: string, anyOf: seq<Json>)

  const NO_VIEW := View(None, map[], [], None, None, [], None, None, None, None, None, None, None, "", [])

  predicate Absent(m: Members, name: string) {
    name !in m || m[name].Null?
  }

  function TextsOrBlank(items: seq<Json>): Option<seq<string>> {
    if items == [] then Some([])
    else
      match TextsOrBlank(items[..|items| - 1])
      case None => None
      case Some(before) =>
        var last := items[|items| - 1];
        if last.Str? then Some(before + [last.text]) else if last.Null? then Some(before + [""]) else None
  }

  /** Decoding one member into a field: None when the decoder reports an error. */
  function DecodeMap(m: Members, name: string): Option<map<string, Json>> {
    if Absent(m, name) then Some(map[]) else if m[name].Obj? then Some(m[name].members) else None
  }

  function DecodeList(m: Members, name: string): Option<seq<Json>> {
    if Absent(m, name) then Some([]) else if m[name].Arr? then Some(m[name].items) else None
  }

  function DecodeNames(m: Members, name: string): Option<seq<string>> {
    if Absent(m, name) then Some([]) else if m[name].Arr? then TextsOrBlank(m[name].items) else None
  }

  function DecodeText(m: Members, name: string): Option<string> {
    if Absent(m, name) then Some("") else if m[name].Str? then Some(m[name].text) else None
  }

  function DecodeBound(re: Engine, m: Members, name: string): Option<Option<Json>> {
    if Absent(m, name) then Some(None) else if BoundOk(re, m[name]) then Some(Some(m[name])) else None
  }

  function DecodeCount(re: Engine, m: Members, name: string): Option<Option<int>> {
    if Absent(m, name) then Some(None)
    else if CountOf(re, m[name]).Some? then Some(CountOf(re, m[name]))
    else None
  }

  predicate Decodes(re: Engine, m: Members) {
    && DecodeMap(m, "properties").Some? && DecodeNames(m, "required").Some? && DecodeList(m, "enum").Some?
    && DecodeBound(re, m, "minimum").Some? && DecodeBound(re, m, "maximum").Some?
    && DecodeCount(re, m, "minLength").Some? && DecodeCount(re, m, "maxLength").Some?
    && DecodeCount(re, m, "minItems").Some? && DecodeCount(re, m, "maxItems").Some?
    && DecodeText(m, "pattern").Some? && DecodeList(m, "anyOf").Some?
  }

  function ViewOf(re: Engine, m: Members): View
    requires Decodes(re, m)
  {
    View(Lookup(m, "type"), DecodeMap(m, "properties").value, DecodeNames(m, "required").value,
         Lookup(m, "additionalProperties"), Lookup(m, "items"), DecodeList(m, "enum").value, Lookup(m, "const"),
         DecodeBound(re, m, "minimum").value, DecodeBound(re, m, "maximum").value,
         DecodeCount(re, m, "minLength").value, DecodeCount(re, m, "maxLength").value,
         DecodeCount(re, m, "minItems").value, DecodeCount(re, m, "maxItems").value,
         DecodeText(m, "pattern").value, DecodeList(m, "anyOf").value)
  }

  /** Decoding null into a struct changes nothing. */
  function Decoded(re: Engine, s: Json): Option<View> {
    match s
    case Null => Some(NO_VIEW)
    case Obj(m) => if Decodes(re, m) then Some(ViewOf(re, m)) else None
    case _ => None
  }

  lemma {:induction false} TextsAreNotBlank(items: seq<Json>)
    requires Texts(items).Some?
    ensures TextsOrBlank(items) == Texts(items)
  {
    if items == [] {
    } else {
      TextsAreNotBlank(items[..|items| - 1]);
    }
  }

  lemma CheckedMembersDecode(re: Engine, m: Members)
    requires ValuesOk(re, m)
    requires "properties" in m ==> m["properties"].Obj?
    requires "anyOf" in m ==> m["anyOf"].Arr?
    ensures Decodes(re, m)
    ensures "required" in m ==> DecodeNames(m, "required") == Texts(m["required"].items)
  {
    if "required" in m {
      TextsAreNotBlank(m["required"].items);
    }
  }

  /** A checked schema decodes. */
  lemma CheckedSchemasDecode(re: Engine, s: Json)
    requires Checked(re, s)
    ensures Decodes(re, s.members) && Decoded(re, s) == Some(ViewOf(re, s.members))
    ensures "required" in s.members ==> DecodeNames(s.members, "required") == Texts(s.members["required"].items)
  {
    CheckedMembersDecode(re, s.members);
  }

  // ---------------------------------------------------------------- the validator

  datatype Outcome = Valid | Mismatch | Malformed

  /** What validation against a checked schema promises. */
  ghost predicate Right(re: Engine, s: Json, v: Json, r: Outcome) {
    Checked(re, s) ==> r != Malformed && (r == Valid <==> Admits(re, s, v))
  }

  predicate TypeMatches(re: Engine, expected: string, v: Json) {
    if expected == "integer" then v.Number? && InRange(re, v) && IsExactInteger(v)
    else expected in TYPES && expected == Kind(v)
  }

  lemma MatchesWhatIsOf(re: Engine, expected: string, v: Json)
    requires expected in TYPES
    ensures TypeMatches(re, expected, v) <==> IsOf(re, expected, v)
  {
    if v.Number? {
      ExactIntegersAreIntegers(v);
    }
  }

  method CheckType(re: Engine, types: Json, v: Json) returns (r: Outcome)
    ensures TypeOk(types) ==>
      r != Malformed && (r == Valid <==> exists name :: name in TypeNames(types).value && IsOf(re, name, v))
  {
    var names := if types.Arr? then Texts(types.items) else if types.Str? then Some([types.text]) else None;
    if names.None? {
      return Malformed;
    }
    assert TypeOk(types) ==> names == TypeNames(types);
    for i := 0 to |names.value|
      invariant TypeOk(types) ==> forall k :: 0 <= k < i ==> !IsOf(re, names.value[k], v)
    {
      if TypeOk(types) {
        assert names.value[i] in names.value;
        MatchesWhatIsOf(re, names.value[i], v);
      }
      if TypeMatches(re, names.value[i], v) {
        return Valid;
      }
    }
    return Mismatch;
  }

  /** What the count bounds of a view say about a length. */
  predicate WithinCounts(low: Option<int>, high: Option<int>, length: nat) {
    && (low.Some? ==> low.value <= length)
    && (high.Some? ==> length <= high.value)
  }

  lemma CountDenotes(re: Engine, j: Json)
    requires CountOf(re, j).Some?
    ensures j.Number? && Denotes(j, CountOf(re, j).value)
  {
    ReducedIsTheSame(j);
    WholeExponent(Reduced(j));
    SameAsBoth(j, Reduced(j), Number(CountOf(re, j).value, 0));
  }

  lemma IntegersCompareAsDenoted(j: Json, k: int, length: int)
    requires j.Number? && Denotes(j, k)
    ensures Cmp(j, Number(length, 0)) <= 0 <==> k <= length
    ensures Cmp(Number(length, 0), j) <= 0 <==> length <= k
  {
    var lower := Min(j.exponent, 0);
    CmpAt(j, Number(k, 0), lower);
    CmpAt(j, Number(length, 0), lower);
    CmpAt(Number(length, 0), j, lower);
    var q := Pow10(-lower);
    assert (k - length) * q == k * q - length * q;
    SignOfProduct(k - length, q);
  }

  lemma CountComparesAsBound(re: Engine, j: Json, length: int)
    requires CountOf(re, j).Some?
    ensures j.Number? && (Cmp(j, Number(length, 0)) <= 0 <==> CountOf(re, j).value <= length)
    ensures Cmp(Number(length, 0), j) <= 0 <==> length <= CountOf(re, j).value
  {
    CountDenotes(re, j);
    IntegersCompareAsDenoted(j, CountOf(re, j).value, length);
  }

  lemma CountsAreBounds(re: Engine, m: Members, low: string, high: string, length: nat)
    requires CountOk(re, m, low) && CountOk(re, m, high)
    ensures var l, h := DecodeCount(re, m, low), DecodeCount(re, m, high);
      l.Some? && h.Some? && (WithinCounts(l.value, h.value, length) <==> Within(re, m, low, high, length))
  {
    if low in m {
      CountComparesAsBound(re, m[low], length);
    }
    if high in m {
      CountComparesAsBound(re, m[high], length);
    }
  }

  method ValidateString(re: Engine, view: View, text: string) returns (r: Outcome)
    ensures r == if !WithinCounts(view.minLength, view.maxLength, |text|) then Mismatch
                 else if view.pattern == "" then Valid
                 else if !re.compiles(view.pattern) then Malformed
                 else if re.matches(view.pattern, text) then Valid else Mismatch
  {
    if view.minLength.Some? && |text| < view.minLength.value {
      return Mismatch;
    }
    if view.maxLength.Some? && |text| > view.maxLength.value {
      return Mismatch;
    }
    if view.pattern != "" {
      if !re.compiles(view.pattern) {
        return Malformed;
      }
      if !re.matches(view.pattern, text) {
        return Mismatch;
      }
    }
    return Valid;
  }

  method ValidateNumber(re: Engine, view: View, v: Json) returns (r: Outcome)
    requires v.Number?
    requires (view.minimum.Some? ==> view.minimum.value.Number?) && (view.maximum.Some? ==> view.maximum.value.Number?)
    ensures r != Malformed
    ensures r == Valid <==>
      && (view.minimum.Some? || view.maximum.Some? ==> InRange(re, v))
      && (view.minimum.Some? ==> Cmp(v, view.minimum.value) >= 0)
      && (view.maximum.Some? ==> Cmp(v, view.maximum.value) <= 0)
  {
    if view.minimum.None? && view.maximum.None? {
      return Valid;
    }
    if !InRange(re, v) {
      return Mismatch;
    }
    if view.minimum.Some? && Cmp(v, view.minimum.value) < 0 {
      return Mismatch;
    }
    if view.maximum.Some? && Cmp(v, view.maximum.value) > 0 {
      return Mismatch;
    }
    return Valid;
  }

  method ValidateAgainstSchema(re: Engine, s: Json, v: Json) returns (r: Outcome)
    ensures Right(re, s, v, r)
    decreases s, 9
  {
    var view := Decoded(re, s);
    if view.None? {
      if Checked(re, s) {
        CheckedSchemasDecode(re, s);
      }
      return Malformed;
    }
    r := Validate(re, s, view.value, v);
  }

  /** `s` is the schema the view was decoded from. */
  method Validate(re: Engine, ghost s: Json, view: View, v: Json) returns (r: Outcome)
    requires Decoded(re, s) == Some(view)
    ensures Right(re, s, v, r)
    decreases s, 8
  {
    r := ValidateShape(re, s, view, v);
    if r != Valid { return; }
    r := ValidateKind(re, s, view, v);
    if r != Valid { return; }
    r := ValidateFixed(re, s, view, v);
  }

  /** The keywords for every kind of value that come first. */
  method ValidateShape(re: Engine, ghost s: Json, view: View, v: Json) returns (r: Outcome)
    requires Decoded(re, s) == Some(view)
    ensures Checked(re, s) ==> r != Malformed && (r == Valid <==> HasType(re, s.members, v) && SomeBranchAdmits(re, s, v))
    decreases s, 7
  {
    ghost var checked := Checked(re, s);
    if checked {
      CheckedSchemasDecode(re, s);
    }
    if view.types.Some? {
      r := CheckType(re, view.types.value, v);
      if r != Valid { return; }
    }
    if |view.anyOf| > 0 {
      assert checked ==> BranchesOk(re, s.members["anyOf"]) && view.anyOf == s.members["anyOf"].items;
      r := ValidateAnyOf(re, s, view.anyOf, v);
      return;
    }
    assert checked && "anyOf" in s.members ==> BranchesOk(re, s.members["anyOf"]);
    return Valid;
  }

  /** const and enum. */
  method ValidateFixed(re: Engine, ghost s: Json, view: View, v: Json) returns (r: Outcome)
    requires Decoded(re, s) == Some(view)
    ensures Checked(re, s) ==> r != Malformed && (r == Valid <==> IsConst(re, s.members, v) && InEnum(re, s.members, v))
  {
    if Checked(re, s) {
      CheckedSchemasDecode(re, s);
    }
    if view.constant.Some? {
      var equal := JsonInstanceEqual(re, v, view.constant.value);
      if equal != Some(true) {
        return Mismatch;
      }
    }
    if |view.options| > 0 {
      for i := 0 to |view.options|
        invariant forall k :: 0 <= k < i ==> !SameValue(re, v, view.options[k])
      {
        var equal := JsonInstanceEqual(re, v, view.options[i]);
        if equal == Some(true) {
          return Valid;
        }
      }
      return Mismatch;
    }
    return Valid;
  }

  /** The keywords for one kind of value. */
  ghost predicate KindAdmits(re: Engine, s: Json, v: Json)
    requires Checked(re, s)
  {
    && (v.Obj? ==> RequiredPresent(s.members, v) && PropertiesAdmitted(re, s, v) && OthersAdmitted(re, s, v))
    && (v.Arr? ==> Within(re, s.members, "minItems", "maxItems", |v.items|) && ItemsAdmitted(re, s, v))
    && (v.Str? ==> TextAdmitted(re, s.members, v.text))
    && (v.Number? ==> NumberAdmitted(re, s.members, v))
  }

  method ValidateKind(re: Engine, ghost s: Json, view: View, v: Json) returns (r: Outcome)
    requires Decoded(re, s) == Some(view)
    ensures Checked(re, s) ==> r != Malformed && (r == Valid <==> KindAdmits(re, s, v))
    decreases s, 7
  {
    if Checked(re, s) {
      CheckedSchemasDecode(re, s);
    }
    match v {
      case Obj(_) => r := ValidateObject(re, s, view, v);
      case Arr(_) => r := ValidateArray(re, s, view, v);
      case Str(text) =>
        r := ValidateString(re, view, text);
        if Checked(re, s) {
          CountsAreBounds(re, s.members, "minLength", "maxLength", |text|);
        }
      case Number(_, _) =>
        r := ValidateNumber(re, view, v);
      case _ => r := Valid;
    }
  }

  method ValidateAnyOf(re: Engine, ghost s: Json, branches: seq<Json>, v: Json) returns (r: Outcome)
    requires forall i :: 0 <= i < |branches| ==> branches[i] < s
    ensures (forall i :: 0 <= i < |branches| ==> Checked(re, branches[i])) ==>
      r != Malformed && (r == Valid <==> exists i :: 0 <= i < |branches| && Admits(re, branches[i], v))
    decreases s, 6
  {
    ghost var checked := forall i :: 0 <= i < |branches| ==> Checked(re, branches[i]);
    for i := 0 to |branches|
      invariant checked ==> forall k :: 0 <= k < i ==> !Admits(re, branches[k], v)
    {
      var child := Decoded(re, branches[i]);
      if child.None? {
        if checked {
          CheckedSchemasDecode(re, branches[i]);
        }
        return Malformed;
      }
      var here := Validate(re, branches[i], child.value, v);
      if here == Valid {
        return Valid;
      }
    }
    return Mismatch;
  }

  method ValidateArray(re: Engine, ghost s: Json, view: View, v: Json) returns (r: Outcome)
    requires Decoded(re, s) == Some(view) && v.Arr?
    ensures Checked(re, s) ==>
      r != Malformed && (r == Valid <==> Within(re, s.members, "minItems", "maxItems", |v.items|) && ItemsAdmitted(re, s, v))
    decreases s, 6
  {
    ghost var checked := Checked(re, s);
    if checked {
      CheckedSchemasDecode(re, s);
      CountsAreBounds(re, s.members, "minItems", "maxItems", |v.items|);
    }
    if view.minItems.Some? && |v.items| < view.minItems.value {
      return Mismatch;
    }
    if view.maxItems.Some? && |v.items| > view.maxItems.value {
      return Mismatch;
    }
    if view.items.None? {
      return Valid;
    }
    var child := Decoded(re, view.items.value);
    if child.None? {
      if checked {
        CheckedSchemasDecode(re, view.items.value);
      }
      return Malformed;
    }
    for i := 0 to |v.items|
      invariant checked ==> forall k :: 0 <= k < i ==> Admits(re, view.items.value, v.items[k])
    {
      r := Validate(re, view.items.value, child.value, v.items[i]);
      if r != Valid { return; }
    }
    return Valid;
  }

  method ValidateObject(re: Engine, ghost s: Json, view: View, v: Json) returns (r: Outcome)
    requires Decoded(re, s) == Some(view) && v.Obj?
    ensures Checked(re, s) ==>
      r != Malformed &&
      (r == Valid <==> RequiredPresent(s.members, v) && PropertiesAdmitted(re, s, v) && OthersAdmitted(re, s, v))
    decreases s, 6
  {
    ghost var checked := Checked(re, s);
    if checked {
      CheckedSchemasDecode(re, s);
    }
    for i := 0 to |view.required|
      invariant forall k :: 0 <= k < i ==> view.required[k] in v.members
    {
      if view.required[i] !in v.members {
        return Mismatch;
      }
    }
    r := ValidateProperties(re, s, view, v);
    if r != Valid { return; }
    r := ValidateAdditional(re, s, view, v);
  }

  method ValidateProperties(re: Engine, ghost s: Json, view: View, v: Json) returns (r: Outcome)
    requires Decoded(re, s) == Some(view) && v.Obj?
    ensures Checked(re, s) ==> r != Malformed && (r == Valid <==> PropertiesAdmitted(re, s, v))
    decreases s, 5
  {
    ghost var checked := Checked(re, s);
    if checked {
      CheckedSchemasDecode(re, s);
    }
    var left := view.properties.Keys;
    while left != {}
      invariant left <= view.properties.Keys
      invariant checked ==> forall name :: name in view.properties && name !in left && name in v.members ==>
        Admits(re, view.properties[name], v.members[name])
      decreases |left|
    {
      var name :| name in left;
      if name in v.members {
        var child := Decoded(re, view.properties[name]);
        if child.None? {
          if checked {
            CheckedSchemasDecode(re, view.properties[name]);
          }
          return Malformed;
        }
        r := Validate(re, view.properties[name], child.value, v.members[name]);
        if r != Valid { return; }
      }
      left := left - {name};
    }
    return Valid;
  }

  method ValidateAdditional(re: Engine, ghost s: Json, view: View, v: Json) returns (r: Outcome)
    requires Decoded(re, s) == Some(view) && v.Obj?
    ensures Checked(re, s) ==> r != Malformed && (r == Valid <==> OthersAdmitted(re, s, v))
    decreases s, 5
  {
    if Checked(re, s) {
      CheckedSchemasDecode(re, s);
      assert view.properties == Declared(s.members);
    }
    if view.additional.None? {
      return Valid;
    }
    var other := view.additional.value;
    if Checked(re, s) && !other.Bool? {
      CheckedSchemasDecode(re, other);
    }
    if other.Bool? && !other.value {
      r := RejectOthers(view.properties, v);
    } else if other.Bool? {
      r := Valid;
    } else if other.Obj? {
      r := ValidateOthers(re, other, view.properties, v);
    } else {
      r := Malformed;
    }
  }

  method RejectOthers(known: map<string, Json>, v: Json) returns (r: Outcome)
    requires v.Obj?
    ensures r != Malformed && (r == Valid <==> forall name :: name in v.members ==> name in known)
  {
    var left := v.members.Keys;
    while left != {}
      invariant left <= v.members.Keys
      invariant forall name :: name in v.members && name !in left ==> name in known
      decreases |left|
    {
      var name :| name in left;
      if name !in known {
        return Mismatch;
      }
      left := left - {name};
    }
    return Valid;
  }

  method ValidateOthers(re: Engine, other: Json, known: map<string, Json>, v: Json) returns (r: Outcome)
    requires v.Obj?
    ensures Checked(re, other) ==>
      r != Malformed &&
      (r == Valid <==> forall name :: name in v.members && name !in known ==> Admits(re, other, v.members[name]))
    decreases other, 9
  {
    ghost var checked := Checked(re, other);
    var child := Decoded(re, other);
    if child.None? {
      if checked {
        CheckedSchemasDecode(re, other);
      }
      return Malformed;
    }
    var left := v.members.Keys;
    while left != {}
      invariant left <= v.members.Keys
      invariant checked ==>
        forall name :: name in v.members && name !in left && name !in known ==> Admits(re, other, v.members[name])
      decreases |left|
    {
      var name :| name in left;
      if name !in known {
        r := Validate(re, other, child.value, v.members[name]);
        if r != Valid { return; }
      }
      left := left - {name};
    }
    return Valid;
  }
}
