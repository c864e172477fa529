/**
 * The V1 schema dialect: which definitions the validator accepts, and what values
 * an accepted schema accepts.
 */
module SchemaValidation {
  import opened Wrappers
  import opened JsValues

  /** An element of a list of strings: a string, or a hole, which tests of every element skip. */
  datatype Slot = Named(text: JsString) | Empty

  /** The property a slot names when a loop reads it: a hole reads as undefined, which becomes a key. */
  function KeyOf(slot: Slot): JsString {
    if slot.Named? then slot.text else Units("undefined")
  }

  /** What an accepted definition says. Lengths count code points; number bounds are any finite numbers. */
  datatype Schema =
    | StringSchema(minLength: Option<int>, maxLength: Option<int>, enumeration: Option<seq<Slot>>)
    | NumberSchema(integer: bool, minimum: Option<real>, maximum: Option<real>)
    | BooleanSchema
    | NullSchema
    | ArraySchema(items: Schema, maxItems: int)
    | ObjectSchema(properties: seq<Property>, required: seq<Slot>)
  datatype Property = Property(key: JsString, schema: Schema)

  // ----- numbers and lengths ------------------------------------------------------------

  const MAX_SAFE_INTEGER := 0x1F_FFFF_FFFF_FFFF

  function Magnitude(n: Num): real {
    if n.Finite? then n.value else 0.0
  }

  predicate IsFinite(n: Num) {
    n.Finite? || n.NegativeZero?
  }

  /** a > b; never of NaN. */
  predicate Exceeds(a: Num, b: Num) {
    !a.NaN? && !b.NaN? && a != b &&
    if a.Infinite? || b.Infinite? then a == Infinite(false) || b == Infinite(true) else Magnitude(a) > Magnitude(b)
  }

  predicate IsSafeInteger(n: Num) {
    IsFinite(n) && Magnitude(n) == Magnitude(n).Floor as real && -MAX_SAFE_INTEGER <= Magnitude(n).Floor <= MAX_SAFE_INTEGER
  }

  predicate IsLimit(v: JsValue) {
    v.JNumber? && IsSafeInteger(v.number) && Magnitude(v.number) >= 0.0
  }

  predicate IsHigh(u: CodeUnit) { 0xd800 <= u <= 0xdbff }
  predicate IsLow(u: CodeUnit) { 0xdc00 <= u <= 0xdfff }

  /** A surrogate pair counts once, and so does an unpaired surrogate. */
  function CodePoints(s: JsString): nat {
    if s == [] then 0
    else if IsHigh(s[0]) && |s| > 1 && IsLow(s[1]) then 1 + CodePoints(s[2..])
    else 1 + CodePoints(s[1..])
  }

  method CodePointLength(text: JsString) returns (length: nat)
    ensures length == CodePoints(text)
  {
    length := 0;
    var i := 0;
    while i < |text|
      invariant 0 <= i <= |text| && length + CodePoints(text[i..]) == CodePoints(text)
    {
      if IsHigh(text[i]) && i + 1 < |text| && IsLow(text[i + 1]) {
        assert text[i..][2..] == text[i + 2..];
        i := i + 1;
      } else {
        assert text[i..][1..] == text[i + 1..];
      }
      i := i + 1;
      length := length + 1;
    }
  }

  // ----- accepted definitions ---------------------------------------------------------------

  predicate Allowed(props: seq<Prop>, keywords: seq<JsString>) {
    forall p <- props :: p.key in keywords
  }

  /** As many members as elements once in a set, where every hole is the same undefined. */
  predicate NoRepeats(slots: seq<Slot>) {
    forall i, j :: 0 <= i < j < |slots| ==> slots[i] != slots[j]
  }

  predicate Has(props: seq<Prop>, key: JsString) {
    exists p <- props :: p.key == key
  }

  function Read(props: seq<Prop>, key: string): JsValue {
    ValueAt(props, Units(key))
  }

  function LimitOf(v: JsValue): Option<int> {
    if IsLimit(v) then Some(Magnitude(v.number).Floor) else None
  }

  predicate LimitOk(v: JsValue) {
    v.JUndefined? || IsLimit(v)
  }

  predicate Within(length: int, low: Option<int>, high: Option<int>) {
    (low.Some? ==> low.value <= length) && (high.Some? ==> length <= high.value)
  }

  /** A list whose every element that is not a hole is a string. */
  function SlotsOf(v: JsValue): Option<seq<Slot>> {
    if v.JArray? && forall i :: 0 <= i < |v.items| ==> v.items[i].JString? || v.items[i].JHole?
    then Some(seq(|v.items|, i requires 0 <= i < |v.items| => if v.items[i].JString? then Named(v.items[i].text) else Empty))
    else None
  }

  predicate EnumOk(v: JsValue, low: Option<int>, high: Option<int>) {
    v.JUndefined? ||
    (var values := SlotsOf(v);
     && values.Some? && values.value != [] && NoRepeats(values.value)
     && forall s <- values.value :: s.Named? ==> Within(CodePoints(s.text), low, high))
  }

  function StringSchemaOf(props: seq<Prop>): Option<Schema> {
    var minLength, maxLength, values := Read(props, "minLength"), Read(props, "maxLength"), Read(props, "enum");
    var low, high := LimitOf(minLength), LimitOf(maxLength);
    if && Allowed(props, [Units("type"), Units("minLength"), Units("maxLength"), Units("enum")])
       && LimitOk(minLength) && LimitOk(maxLength) && (low.Some? && high.Some? ==> low.value <= high.value)
       && EnumOk(values, low, high)
    then Some(StringSchema(low, high, SlotsOf(values)))
    else None
  }

  predicate BoundOk(v: JsValue, integer: bool) {
    v.JUndefined? || (v.JNumber? && IsFinite(v.number) && (integer ==> IsSafeInteger(v.number)))
  }

  function BoundOf(v: JsValue): Option<real> {
    if v.JNumber? then Some(Magnitude(v.number)) else None
  }

  function NumberSchemaOf(props: seq<Prop>, integer: bool): Option<Schema> {
    var minimum, maximum := Read(props, "minimum"), Read(props, "maximum");
    if && Allowed(props, [Units("type"), Units("minimum"), Units("maximum")])
       && BoundOk(minimum, integer) && BoundOk(maximum, integer)
       && (minimum.JNumber? && maximum.JNumber? ==> !Exceeds(minimum.number, maximum.number))
    then Some(NumberSchema(integer, BoundOf(minimum), BoundOf(maximum)))
    else None
  }

  /** The schema a definition is accepted as at a depth; None when an issue is reported. */
  function SchemaOf(v: JsValue, depth: nat): Option<Schema>
    decreases v, 1, 0
  {
    if depth > MAX_NESTING_DEPTH || !v.JObject? then None
    else
      var kind := Read(v.props, "type");
      if kind == JString(Units("string")) then StringSchemaOf(v.props)
      else if kind == JString(Units("number")) then NumberSchemaOf(v.props, false)
      else if kind == JString(Units("integer")) then NumberSchemaOf(v.props, true)
      else if kind == JString(Units("boolean")) then if Allowed(v.props, [Units("type")]) then Some(BooleanSchema) else None
      else if kind == JString(Units("null")) then if Allowed(v.props, [Units("type")]) then Some(NullSchema) else None
      else if kind == JString(Units("array")) then ArraySchemaOf(v, depth)
      else if kind == JString(Units("object")) then ObjectSchemaOf(v, depth)
      else None
  }

  function ArraySchemaOf(v: JsValue, depth: nat): Option<Schema>
    requires v.JObject?
    decreases v, 0, 0
  {
    var items, maxItems := Read(v.props, "items"), Read(v.props, "maxItems");
    if !Allowed(v.props, [Units("type"), Units("items"), Units("maxItems")]) || !IsLimit(maxItems) || items.JUndefined? then None
    else
      ValueAtIn(v.props, Units("items"));
      match SchemaOf(items, depth + 1)
      case None => None
      case Some(s) => Some(ArraySchema(s, Magnitude(maxItems.number).Floor))
  }

  function ObjectSchemaOf(v: JsValue, depth: nat): Option<Schema>
    requires v.JObject?
    decreases v, 0, 0
  {
    var properties, required := Read(v.props, "properties"), SlotsOf(Read(v.props, "required"));
    if || !Allowed(v.props, [Units("type"), Units("properties"), Units("required"), Units("additionalProperties")])
       || Read(v.props, "additionalProperties") != JBool(false) || !properties.JObject? || required.None?
       || !NoRepeats(required.value) || !(forall slot <- required.value :: Has(properties.props, KeyOf(slot)))
    then None
    else
      ValueAtIn(v.props, Units("properties"));
      match PropertiesOf(properties, |properties.props|, depth)
      case None => None
      case Some(ps) => Some(ObjectSchema(ps, required.value))
  }

  function PropertiesOf(v: JsValue, n: nat, depth: nat): Option<seq<Property>>
    requires v.JObject? && n <= |v.props|
    decreases v, 0, n
  {
    if n == 0 then Some([])
    else
      match PropertiesOf(v, n - 1, depth)
      case None => None
      case Some(init) =>
        match SchemaOf(v.props[n - 1].value, depth + 1)
        case None => None
        case Some(s) => Some(init + [Property(v.props[n - 1].key, s)])
  }

  lemma {:induction false} ValueAtIn(props: seq<Prop>, key: JsString)
    ensures Defined(props, key) ==> exists i :: 0 <= i < |props| && props[i].key == key && props[i].value == ValueAt(props, key)
  {
    if props != [] && props[0].key != key {
      ValueAtIn(props[1..], key);
      if Defined(props, key) {
        var i :| 0 <= i < |props[1..]| && props[1..][i].key == key && props[1..][i].value == ValueAt(props[1..], key);
        assert props[i + 1] == props[1..][i];
      }
    }
  }

  // ----- the validator of definitions ------------------------------------------------------------

  datatype Code = SchemaDepthExceeded | InvalidType | SchemaUnsupportedType | SchemaUnsupportedKeyword | InvalidValue | Required | UnknownReference | InvalidParamsSchema

  /** Where the issue is, as pointer segments, and what it is. */
  datatype Issue = Issue(path: seq<JsString>, code: Code)

  /** The list every level of one validation reports to. */
  class IssueList {
    var issues: seq<Issue>

    constructor ()
      ensures issues == []
    {
      issues := [];
    }

    method Push(path: seq<JsString>, code: Code)
      modifies this
      ensures issues == old(issues) + [Issue(path, code)]
    {
      issues := issues + [Issue(path, code)];
    }

    /** Issues are only ever added. */
    twostate predicate Grown()
      reads this
    {
      old(issues) <= issues
    }

    method ReportKeywords(props: seq<Prop>, keywords: seq<JsString>, path: seq<JsString>)
      modifies this
      ensures Grown() && (issues == old(issues) <==> Allowed(props, keywords))
    {
      for i := 0 to |props|
        invariant old(issues) <= issues
        invariant issues == old(issues) <==> Allowed(props[..i], keywords)
      {
        assert props[..i + 1] == props[..i] + [props[i]];
        if props[i].key !in keywords { Push(path + [props[i].key], SchemaUnsupportedKeyword); }
      }
      assert props[..|props|] == props;
    }

    method ReportLimit(v: JsValue, path: seq<JsString>)
      modifies this
      ensures Grown() && (issues == old(issues) <==> LimitOk(v))
    {
      if !v.JUndefined? && !IsLimit(v) { Push(path, InvalidValue); }
    }

    method ReportString(props: seq<Prop>, path: seq<JsString>)
      modifies this
      ensures Grown()
      ensures issues == old(issues) <==>
              && LimitOk(Read(props, "minLength")) && LimitOk(Read(props, "maxLength"))
              && (IsLimit(Read(props, "minLength")) && IsLimit(Read(props, "maxLength")) ==>
                    LimitOf(Read(props, "minLength")).value <= LimitOf(Read(props, "maxLength")).value)
              && EnumOk(Read(props, "enum"), LimitOf(Read(props, "minLength")), LimitOf(Read(props, "maxLength")))
    {
      var minLength, maxLength, values := Read(props, "minLength"), Read(props, "maxLength"), Read(props, "enum");
      var low, high := LimitOf(minLength), LimitOf(maxLength);
      ReportLimit(minLength, path + [Units("minLength")]);
      ReportLimit(maxLength, path + [Units("maxLength")]);
      if low.Some? && high.Some? && low.value > high.value { Push(path + [Units("minLength")], InvalidValue); }
      if !values.JUndefined? {
        var strings := SlotsOf(values);
        if strings.None? || strings.value == [] {
          Push(path + [Units("enum")], InvalidValue);
        } else if !NoRepeats(strings.value) {
          Push(path + [Units("enum")], InvalidValue);
        } else if exists s <- strings.value :: s.Named? && !Within(CodePoints(s.text), low, high) {
          Push(path + [Units("enum")], InvalidValue);
        }
      }
    }

    method ReportBound(v: JsValue, integer: bool, path: seq<JsString>)
      modifies this
      ensures Grown() && (issues == old(issues) <==> BoundOk(v, integer))
    {
      if v.JUndefined? { return; }
      if !v.JNumber? || !IsFinite(v.number) || (integer && !IsSafeInteger(v.number)) { Push(path, InvalidValue); }
    }

    method ReportNumber(props: seq<Prop>, integer: bool, path: seq<JsString>)
      modifies this
      ensures Grown()
      ensures issues == old(issues) <==>
              && BoundOk(Read(props, "minimum"), integer) && BoundOk(Read(props, "maximum"), integer)
              && (Read(props, "minimum").JNumber? && Read(props, "maximum").JNumber? ==>
                    !Exceeds(Read(props, "minimum").number, Read(props, "maximum").number))
    {
      var minimum, maximum := Read(props, "minimum"), Read(props, "maximum");
      ReportBound(minimum, integer, path + [Units("minimum")]);
      ReportBound(maximum, integer, path + [Units("maximum")]);
      if minimum.JNumber? && maximum.JNumber? && Exceeds(minimum.number, maximum.number) {
        Push(path + [Units("minimum")], InvalidValue);
      }
    }

    method ReportArray(v: JsValue, path: seq<JsString>, depth: nat)
      requires v.JObject?
      modifies this
      ensures Grown()
      ensures issues == old(issues) && Allowed(v.props, [Units("type"), Units("items"), Units("maxItems")]) <==>
              issues == old(issues) && ArraySchemaOf(v, depth).Some?
      ensures ArraySchemaOf(v, depth).Some? ==> issues == old(issues)
      decreases v, 0
    {
      var items := Read(v.props, "items");
      if !IsLimit(Read(v.props, "maxItems")) { Push(path + [Units("maxItems")], Required); }
      if items.JUndefined? {
        Push(path + [Units("items")], Required);
      } else {
        ValueAtIn(v.props, Units("items"));
        var _ := ValidateSchemaDefinition(items, path + [Units("items")], depth + 1);
      }
    }

    method ReportRequired(properties: JsValue, value: JsValue, path: seq<JsString>)
      modifies this
      ensures Grown()
      ensures issues == old(issues) <==>
              SlotsOf(value).Some? && NoRepeats(SlotsOf(value).value)
              && (properties.JObject? ==> forall slot <- SlotsOf(value).value :: Has(properties.props, KeyOf(slot)))
    {
      var required := SlotsOf(value);
      if required.None? {
        Push(path + [Units("required")], Required);
        return;
      }
      if !NoRepeats(required.value) { Push(path + [Units("required")], InvalidValue); }
      if properties.JObject? {
        ghost var was := issues;
        for i := 0 to |required.value|
          invariant was <= issues
          invariant issues == was <==> forall slot <- required.value[..i] :: Has(properties.props, KeyOf(slot))
        {
          assert required.value[..i + 1] == required.value[..i] + [required.value[i]];
          if !Has(properties.props, KeyOf(required.value[i])) { Push(path + [Units("required")], UnknownReference); }
        }
        assert required.value[..|required.value|] == required.value;
      }
    }

    method ReportProperties(properties: JsValue, path: seq<JsString>, depth: nat)
      requires properties.JObject?
      modifies this
      ensures Grown() && (issues == old(issues) <==> PropertiesOf(properties, |properties.props|, depth).Some?)
      decreases properties, 0
    {
      for i := 0 to |properties.props|
        invariant old(issues) <= issues
        invariant issues == old(issues) <==> PropertiesOf(properties, i, depth).Some?
      {
        var p := properties.props[i];
        var _ := ValidateSchemaDefinition(p.value, path + [Units("properties"), p.key], depth + 1);
      }
    }

    method ReportObject(v: JsValue, path: seq<JsString>, depth: nat)
      requires v.JObject?
      modifies this
      ensures Grown()
      ensures issues == old(issues) && Allowed(v.props, [Units("type"), Units("properties"), Units("required"), Units("additionalProperties")]) <==>
              issues == old(issues) && ObjectSchemaOf(v, depth).Some?
      ensures ObjectSchemaOf(v, depth).Some? ==> issues == old(issues)
      decreases v, 0
    {
      if Read(v.props, "additionalProperties") != JBool(false) { Push(path + [Units("additionalProperties")], Required); }
      var properties := Read(v.props, "properties");
      if !properties.JObject? {
        Push(path + [Units("properties")], Required);
      } else {
        ValueAtIn(v.props, Units("properties"));
        ReportProperties(properties, path, depth);
      }
      ReportRequired(properties, Read(v.props, "required"), path);
    }

    /** Reports every issue of a definition; true exactly when it is accepted as a schema. */
    method ValidateSchemaDefinition(v: JsValue, path: seq<JsString>, depth: nat) returns (ok: bool)
      modifies this
      ensures Grown() && (ok <==> issues == old(issues)) && (ok <==> SchemaOf(v, depth).Some?)
      decreases v, 1
    {
      var before := |issues|;
      if depth > MAX_NESTING_DEPTH {
        Push(path, SchemaDepthExceeded);
        return false;
      }
      if !v.JObject? {
        Push(path, InvalidType);
        return false;
      }
      var kind := Read(v.props, "type");
      if kind == JString(Units("string")) {
        ReportKeywords(v.props, [Units("type"), Units("minLength"), Units("maxLength"), Units("enum")], path);
        ReportString(v.props, path);
      } else if kind == JString(Units("number")) {
        ReportKeywords(v.props, [Units("type"), Units("minimum"), Units("maximum")], path);
        ReportNumber(v.props, false, path);
      } else if kind == JString(Units("integer")) {
        ReportKeywords(v.props, [Units("type"), Units("minimum"), Units("maximum")], path);
        ReportNumber(v.props, true, path);
      } else if kind == JString(Units("boolean")) {
        ReportKeywords(v.props, [Units("type")], path);
      } else if kind == JString(Units("null")) {
        ReportKeywords(v.props, [Units("type")], path);
      } else if kind == JString(Units("array")) {
        ReportKeywords(v.props, [Units("type"), Units("items"), Units("maxItems")], path);
        ReportArray(v, path, depth);
      } else if kind == JString(Units("object")) {
        ReportKeywords(v.props, [Units("type"), Units("properties"), Units("required"), Units("additionalProperties")], path);
        ReportObject(v, path, depth);
      } else {
        Push(path + [Units("type")], SchemaUnsupportedType);
      }
      return |issues| == before;
    }
  }
}
