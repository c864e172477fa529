/**
 * What validateValue promises of every accepted schema: some value satisfies it, no value
 * meets its depth error, and whatever it accepts is JSON data.
 */
module SchemaValues {
  import opened Wrappers
  import opened JsValues
  import opened SchemaValidation

  datatype Problem =
    | TooDeep
    | NotString | NotAllowedString | TooShort | TooLong
    | NotFinite | NotSafeInteger | TooSmall | TooLarge
    | NotBoolean | NotNull | NotArray | TooManyItems
    | NotObject | UnexpectedProperty(key: JsString) | MissingProperty(key: JsString)

  predicate Declares(properties: seq<Property>, key: JsString) {
    exists p <- properties :: p.key == key
  }

  function FirstUnexpected(props: seq<Prop>, properties: seq<Property>): Option<Problem> {
    if props == [] then None
    else if !Declares(properties, props[0].key) then Some(UnexpectedProperty(props[0].key))
    else FirstUnexpected(props[1..], properties)
  }

  function FirstMissing(required: seq<Slot>, props: seq<Prop>): Option<Problem> {
    if required == [] then None
    else if !Has(props, KeyOf(required[0])) then Some(MissingProperty(KeyOf(required[0])))
    else FirstMissing(required[1..], props)
  }

  function StringProblem(s: Schema, v: JsValue): Option<Problem>
    requires s.StringSchema?
  {
    if !v.JString? then Some(NotString)
    else if s.enumeration.Some? && Named(v.text) !in s.enumeration.value then Some(NotAllowedString)
    else if s.minLength.Some? && CodePoints(v.text) < s.minLength.value then Some(TooShort)
    else if s.maxLength.Some? && CodePoints(v.text) > s.maxLength.value then Some(TooLong)
    else None
  }

  function NumberProblem(s: Schema, v: JsValue): Option<Problem>
    requires s.NumberSchema?
  {
    if !v.JNumber? || !IsFinite(v.number) then Some(NotFinite)
    else if s.integer && !IsSafeInteger(v.number) then Some(NotSafeInteger)
    else if s.minimum.Some? && Magnitude(v.number) < s.minimum.value then Some(TooSmall)
    else if s.maximum.Some? && Magnitude(v.number) > s.maximum.value then Some(TooLarge)
    else None
  }

  /** The first problem of a value under a schema; None when it is valid. */
  function Validate(s: Schema, v: JsValue, depth: nat): Option<Problem>
    decreases s, 1, 0
  {
    if depth > MAX_NESTING_DEPTH then Some(TooDeep)
    else
      match s
      case StringSchema(_, _, _) => StringProblem(s, v)
      case NumberSchema(_, _, _) => NumberProblem(s, v)
      case BooleanSchema => if v.JBool? then None else Some(NotBoolean)
      case NullSchema => if v.JNull? then None else Some(NotNull)
      case ArraySchema(_, maxItems) =>
        if !v.JArray? then Some(NotArray)
        else if |v.items| > maxItems then Some(TooManyItems)
        else FirstBadItem(s, v.items, depth)
      case ObjectSchema(properties, required) =>
        if !v.JObject? then Some(NotObject)
        else if FirstUnexpected(v.props, properties).Some? then FirstUnexpected(v.props, properties)
        else if FirstMissing(required, v.props).Some? then FirstMissing(required, v.props)
        else FirstBadProperty(s, 0, v.props, depth)
  }

  /** An element that was never assigned reads as undefined. */
  function Element(v: JsValue): JsValue {
    if v.JHole? then JUndefined else v
  }

  function FirstBadItem(s: Schema, items: seq<JsValue>, depth: nat): Option<Problem>
    requires s.ArraySchema?
    decreases s, 0, |items|
  {
    if items == [] then None
    else
      var problem := Validate(s.items, Element(items[0]), depth + 1);
      if problem.Some? then problem else FirstBadItem(s, items[1..], depth)
  }

  function FirstBadProperty(s: Schema, i: nat, props: seq<Prop>, depth: nat): Option<Problem>
    requires s.ObjectSchema? && i <= |s.properties|
    decreases s, 0, |s.properties| - i
  {
    if i == |s.properties| then None
    else
      var p := s.properties[i];
      var problem := if Has(props, p.key) then Validate(p.schema, ValueAt(props, p.key), depth + 1) else None;
      if problem.Some? then problem else FirstBadProperty(s, i + 1, props, depth)
  }

  // ----- accepted schemas -------------------------------------------------------------------

  /** What an accepted definition guarantees, down to the nesting limit. */
  predicate Sane(s: Schema, depth: nat) {
    depth <= MAX_NESTING_DEPTH &&
    match s
    case StringSchema(low, high, values) =>
      && (low.Some? ==> low.value >= 0) && (high.Some? ==> high.value >= 0)
      && (low.Some? && high.Some? ==> low.value <= high.value)
      && (values.Some? ==> values.value != [] && NoRepeats(values.value) && forall x <- values.value :: x.Named? ==> Within(CodePoints(x.text), low, high))
    case NumberSchema(integer, low, high) =>
      && (low.Some? && high.Some? ==> low.value <= high.value)
      && (integer ==> (low.Some? ==> IsSafeInteger(Finite(low.value))) && (high.Some? ==> IsSafeInteger(Finite(high.value))))
    case ArraySchema(items, maxItems) => maxItems >= 0 && Sane(items, depth + 1)
    case ObjectSchema(properties, required) =>
      && NoRepeats(required) && (forall slot <- required :: Declares(properties, KeyOf(slot)))
      && (forall i, j :: 0 <= i < j < |properties| ==> properties[i].key != properties[j].key)
      && (forall i :: 0 <= i < |properties| ==> Sane(properties[i].schema, depth + 1))
    case _ => true
  }

  lemma {:induction false} PropertiesAre(v: JsValue, n: nat, depth: nat)
    requires v.JObject? && n <= |v.props| && PropertiesOf(v, n, depth).Some?
    ensures var ps := PropertiesOf(v, n, depth).value;
            |ps| == n && forall i :: 0 <= i < n ==> ps[i].key == v.props[i].key && SchemaOf(v.props[i].value, depth + 1) == Some(ps[i].schema)
  {
    if n > 0 {
      PropertiesAre(v, n - 1, depth);
      var init, ps := PropertiesOf(v, n - 1, depth).value, PropertiesOf(v, n, depth).value;
      assert ps == init + [Property(v.props[n - 1].key, SchemaOf(v.props[n - 1].value, depth + 1).value)];
      assert forall i :: 0 <= i < n - 1 ==> ps[i] == init[i];
    }
  }

  lemma {:induction false} SchemaOfSane(v: JsValue, depth: nat)
    requires Proper(v) && SchemaOf(v, depth).Some?
    ensures Sane(SchemaOf(v, depth).value, depth)
    decreases v, 1
  {
    match SchemaOf(v, depth).value
    case ArraySchema(items, _) =>
      ValueAtIn(v.props, Units("items"));
      SchemaOfSane(Read(v.props, "items"), depth + 1);
    case ObjectSchema(_, _) =>
      assert SchemaOf(v, depth) == ObjectSchemaOf(v, depth);
      ObjectSchemaSane(v, depth);
    case _ =>
  }

  lemma {:induction false} ObjectSchemaSane(v: JsValue, depth: nat)
    requires v.JObject? && depth <= MAX_NESTING_DEPTH && Proper(v) && ObjectSchemaOf(v, depth).Some?
    ensures Sane(ObjectSchemaOf(v, depth).value, depth)
    decreases v, 0
  {
    var s, definitions := ObjectSchemaOf(v, depth).value, Read(v.props, "properties");
    ValueAtIn(v.props, Units("properties"));
    PropertiesAre(definitions, |definitions.props|, depth);
    forall i | 0 <= i < |s.properties| ensures Sane(s.properties[i].schema, depth + 1) {
      SchemaOfSane(definitions.props[i].value, depth + 1);
    }
    forall slot <- s.required ensures Declares(s.properties, KeyOf(slot)) {
      var i :| 0 <= i < |definitions.props| && definitions.props[i].key == KeyOf(slot);
      assert s.properties[i].key == KeyOf(slot);
    }
  }

  // ----- no depth error --------------------------------------------------------------------------

  lemma {:induction false} FirstUnexpectedIs(props: seq<Prop>, properties: seq<Property>)
    ensures FirstUnexpected(props, properties) != Some(TooDeep)
    ensures FirstUnexpected(props, properties).None? <==> forall p <- props :: Declares(properties, p.key)
  {
    if props != [] {
      FirstUnexpectedIs(props[1..], properties);
      assert props == [props[0]] + props[1..];
    }
  }

  lemma {:induction false} FirstMissingIs(required: seq<Slot>, props: seq<Prop>)
    ensures FirstMissing(required, props) != Some(TooDeep)
    ensures FirstMissing(required, props).None? <==> forall slot <- required :: Has(props, KeyOf(slot))
  {
    if required != [] {
      FirstMissingIs(required[1..], props);
      assert required == [required[0]] + required[1..];
    }
  }

  lemma {:induction false} NeverDeep(s: Schema, v: JsValue, depth: nat)
    requires Sane(s, depth)
    ensures Validate(s, v, depth) != Some(TooDeep)
    decreases s, 1, 0
  {
    match s
    case ArraySchema(_, _) => if v.JArray? { ItemsNeverDeep(s, v.items, depth); }
    case ObjectSchema(properties, required) =>
      if v.JObject? {
        FirstUnexpectedIs(v.props, properties);
        FirstMissingIs(required, v.props);
        PropertiesNeverDeep(s, 0, v.props, depth);
      }
    case _ =>
  }

  lemma {:induction false} ItemsNeverDeep(s: Schema, items: seq<JsValue>, depth: nat)
    requires Sane(s, depth) && s.ArraySchema?
    ensures FirstBadItem(s, items, depth) != Some(TooDeep)
    decreases s, 0, |items|
  {
    if items != [] {
      NeverDeep(s.items, Element(items[0]), depth + 1);
      ItemsNeverDeep(s, items[1..], depth);
    }
  }

  lemma {:induction false} PropertiesNeverDeep(s: Schema, i: nat, props: seq<Prop>, depth: nat)
    requires Sane(s, depth) && s.ObjectSchema? && i <= |s.properties|
    ensures FirstBadProperty(s, i, props, depth) != Some(TooDeep)
    decreases s, 0, |s.properties| - i
  {
    if i < |s.properties| {
      NeverDeep(s.properties[i].schema, ValueAt(props, s.properties[i].key), depth + 1);
      PropertiesNeverDeep(s, i + 1, props, depth);
    }
  }

  // ----- accepted values are JSON data ---------------------------------------------------------------

  lemma {:induction false} AcceptedIsJson(s: Schema, v: JsValue, depth: nat)
    requires Proper(v) && Validate(s, v, depth).None?
    ensures IsJsonValue(v, depth)
    decreases s, 1, 0
  {
    match s
    case ArraySchema(_, _) => ItemsAreJson(s, v.items, depth);
    case ObjectSchema(_, _) =>
      forall i | 0 <= i < |v.props| ensures IsJsonValue(v.props[i].value, depth + 1) { PropertyIsJson(s, v, i, depth); }
    case _ =>
  }

  lemma {:induction false} PropertyIsJson(s: Schema, v: JsValue, i: nat, depth: nat)
    requires s.ObjectSchema? && Proper(v) && Validate(s, v, depth).None? && i < |v.props|
    ensures IsJsonValue(v.props[i].value, depth + 1)
    decreases s, 0, 0
  {
    var p := v.props[i];
    assert p in v.props;
    assert Declares(s.properties, p.key) by { FirstUnexpectedIs(v.props, s.properties); }
    assert ValueAt(v.props, p.key) == p.value by { ValueAtIs(v.props, p.key); }
    var k :| 0 <= k < |s.properties| && s.properties[k].key == p.key;
    PropertyIsValid(s, 0, k, v.props, depth);
    AcceptedIsJson(s.properties[k].schema, p.value, depth + 1);
  }

  lemma {:induction false} ItemsAreJson(s: Schema, items: seq<JsValue>, depth: nat)
    requires s.ArraySchema? && FirstBadItem(s, items, depth).None? && forall i :: 0 <= i < |items| ==> Proper(items[i])
    ensures forall i :: 0 <= i < |items| ==> IsJsonValue(items[i], depth + 1)
    decreases s, 0, |items|
  {
    if items != [] {
      UndefinedInvalid(s.items, depth + 1);
      AcceptedIsJson(s.items, items[0], depth + 1);
      ItemsAreJson(s, items[1..], depth);
      assert items == [items[0]] + items[1..];
    }
  }

  lemma {:induction false} UndefinedInvalid(s: Schema, depth: nat)
    ensures Validate(s, JUndefined, depth).Some?
  {
  }

  lemma {:induction false} PropertyIsValid(s: Schema, i: nat, k: nat, props: seq<Prop>, depth: nat)
    requires s.ObjectSchema? && i <= k < |s.properties| && FirstBadProperty(s, i, props, depth).None? && Has(props, s.properties[k].key)
    ensures Validate(s.properties[k].schema, ValueAt(props, s.properties[k].key), depth + 1).None?
    decreases k - i
  {
    if i < k { PropertyIsValid(s, i + 1, k, props, depth); }
  }

  // ----- which schemas accept a value ------------------------------------------------------------------------

  function Letters(n: nat): JsString {
    if n == 0 then [] else [97] + Letters(n - 1)
  }

  lemma {:induction false} LettersCount(n: nat)
    ensures CodePoints(Letters(n)) == n
  {
    if n > 0 { LettersCount(n - 1); }
  }

  /** One of the required names is this property's. */
  predicate Requires(required: seq<Slot>, p: Property) {
    exists slot <- required :: KeyOf(slot) == p.key
  }

  /** Required properties lead to a string schema whose enum is one hole and nothing else. */
  predicate ForcesHole(s: Schema) {
    match s
    case StringSchema(_, _, values) => values == Some([Empty])
    case ObjectSchema(properties, required) =>
      exists i :: 0 <= i < |properties| && Requires(required, properties[i]) && ForcesHole(properties[i].schema)
    case _ => false
  }

  /** No value satisfies a schema that forces one out of an enum of one hole. */
  lemma {:induction false} ForcedHoleRefuses(s: Schema, v: JsValue, depth: nat)
    requires Sane(s, depth) && ForcesHole(s) && Proper(v)
    ensures Validate(s, v, depth).Some?
    decreases s
  {
    match s
    case StringSchema(_, _, _) =>
    case ObjectSchema(properties, required) =>
      if v.JObject? {
        var i :| 0 <= i < |properties| && Requires(required, properties[i]) && ForcesHole(properties[i].schema);
        FirstUnexpectedIs(v.props, properties);
        FirstMissingIs(required, v.props);
        var key := properties[i].key;
        if Has(v.props, key) {
          ValueAtIs(v.props, key);
          ValueProper(v.props, key);
          ForcedHoleRefuses(properties[i].schema, ValueAt(v.props, key), depth + 1);
          if FirstBadProperty(s, 0, v.props, depth).None? { PropertyIsValid(s, 0, i, v.props, depth); }
        }
      }
  }

  lemma {:induction false} ValueProper(props: seq<Prop>, key: JsString)
    requires forall i :: 0 <= i < |props| ==> Proper(props[i].value)
    ensures Proper(ValueAt(props, key))
  {
    if props != [] && props[0].key != key { ValueProper(props[1..], key); }
  }

  /** A value every check of the schema accepts: its required properties only, and the least of each. */
  lemma {:induction false} Sample(s: Schema, depth: nat) returns (v: JsValue)
    requires Sane(s, depth) && !ForcesHole(s)
    ensures Proper(v) && Validate(s, v, depth).None?
    decreases s, 1, 0
  {
    match s
    case StringSchema(_, _, _) => v := SampleString(s);
    case NumberSchema(_, low, high) =>
      v := JNumber(Finite(if low.Some? then low.value else if high.Some? then high.value else 0.0));
    case BooleanSchema => v := JBool(true);
    case NullSchema => v := JNull;
    case ArraySchema(_, _) => v := JArray([]);
    case ObjectSchema(properties, required) =>
      var props := SampleProps(s, |required|, depth);
      v := JObject(props);
      FirstUnexpectedIs(props, properties);
      FirstMissingIs(required, props);
      SamplePropsValid(s, 0, props, depth);
  }

  /** The first enum value that is not a hole, or the shortest string allowed. */
  lemma {:induction false} SampleString(s: Schema) returns (v: JsValue)
    requires s.StringSchema? && Sane(s, 1) && !ForcesHole(s)
    ensures v.JString? && StringProblem(s, v).None?
  {
    if s.enumeration.Some? {
      var values := s.enumeration.value;
      var i := if values[0].Named? then 0 else 1;
      assert |values| == 1 ==> values == [values[0]];
      assert values[i].Named? && values[i] in values;
      v := JString(values[i].text);
    } else {
      var least := if s.minLength.Some? then s.minLength.value else 0;
      v := JString(Letters(least));
      LettersCount(least);
    }
  }

  /** The property holds a value its schema accepts. */
  predicate Satisfied(s: Schema, p: Prop, depth: nat)
    requires s.ObjectSchema?
  {
    forall i :: 0 <= i < |s.properties| && s.properties[i].key == p.key ==> Validate(s.properties[i].schema, p.value, depth).None?
  }

  /** Properties for the first n required names, each name once, and each with a value its schema accepts. */
  predicate Samples(s: Schema, n: nat, props: seq<Prop>, depth: nat)
    requires s.ObjectSchema? && n <= |s.required|
  {
    && DistinctKeys(props)
    && (forall p <- props :: Proper(p.value) && Declares(s.properties, p.key) && Satisfied(s, p, depth + 1))
    && forall k :: 0 <= k < n ==> Has(props, KeyOf(s.required[k]))
  }

  /** A hole beside the name "undefined" names one property twice. */
  lemma {:induction false} SampleProps(s: Schema, n: nat, depth: nat) returns (props: seq<Prop>)
    requires Sane(s, depth) && s.ObjectSchema? && !ForcesHole(s) && n <= |s.required|
    ensures Samples(s, n, props, depth)
    decreases s, 0, n
  {
    props := [];
    if n > 0 {
      var init := SampleProps(s, n - 1, depth);
      var key := KeyOf(s.required[n - 1]);
      if Has(init, key) {
        props := init;
      } else {
        var k := RequiredProperty(s, n - 1, depth);
        var value := Sample(s.properties[k].schema, depth + 1);
        props := init + [Prop(key, value)];
        SampleAdded(s, n, init, Prop(key, value), k, depth);
      }
    }
  }

  /** The property a required name declares. */
  lemma {:induction false} RequiredProperty(s: Schema, i: nat, depth: nat) returns (k: nat)
    requires Sane(s, depth) && s.ObjectSchema? && !ForcesHole(s) && i < |s.required|
    ensures k < |s.properties| && s.properties[k].key == KeyOf(s.required[i]) && !ForcesHole(s.properties[k].schema)
  {
    var slot := s.required[i];
    assert slot in s.required && Declares(s.properties, KeyOf(slot));
    k :| 0 <= k < |s.properties| && s.properties[k].key == KeyOf(slot);
    assert Requires(s.required, s.properties[k]);
  }

  lemma {:induction false} SampleAdded(s: Schema, n: nat, init: seq<Prop>, p: Prop, k: nat, depth: nat)
    requires Sane(s, depth) && s.ObjectSchema? && 0 < n <= |s.required| && Samples(s, n - 1, init, depth)
    requires p.key == KeyOf(s.required[n - 1]) && !Has(init, p.key)
    requires k < |s.properties| && s.properties[k].key == p.key && Proper(p.value) && Validate(s.properties[k].schema, p.value, depth + 1).None?
    ensures Samples(s, n, init + [p], depth)
  {
    var props := init + [p];
    assert p in props && forall q <- init :: q in props;
    assert forall i :: 0 <= i < |init| ==> init[i] in init;
    assert Satisfied(s, p, depth + 1);
  }

  lemma {:induction false} SamplePropsValid(s: Schema, i: nat, props: seq<Prop>, depth: nat)
    requires s.ObjectSchema? && i <= |s.properties| && DistinctKeys(props) && forall p <- props :: Satisfied(s, p, depth + 1)
    ensures FirstBadProperty(s, i, props, depth).None?
    decreases |s.properties| - i
  {
    if i < |s.properties| {
      var key := s.properties[i].key;
      ValueAtIs(props, key);
      if Has(props, key) {
        var k :| 0 <= k < |props| && props[k].key == key;
        assert props[k] in props;
      }
      SamplePropsValid(s, i + 1, props, depth);
    }
  }

  // ----- the three promises --------------------------------------------------------------------------------

  /** A definition the validator accepts has a value exactly when its required properties force none out of an enum of one hole. */
  lemma {:induction false} InhabitedExactly(definition: JsValue)
    requires Proper(definition) && SchemaOf(definition, 1).Some?
    ensures var s := SchemaOf(definition, 1).value;
            (exists v :: Proper(v) && Validate(s, v, 1).None?) <==> !ForcesHole(s)
  {
    var s := SchemaOf(definition, 1).value;
    SchemaOfSane(definition, 1);
    if ForcesHole(s) {
      forall v | Proper(v) ensures Validate(s, v, 1).Some? { ForcedHoleRefuses(s, v, 1); }
    } else {
      var v := Sample(s, 1);
    }
  }

  /** A definition written out, or parsed from JSON text, has no holes. */
  predicate Dense(v: JsValue) {
    match v
    case JArray(items) => forall i :: 0 <= i < |items| ==> !items[i].JHole? && Dense(items[i])
    case JObject(props) => forall i :: 0 <= i < |props| ==> Dense(props[i].value)
    case _ => true
  }

  lemma {:induction false} ValueDense(props: seq<Prop>, key: JsString)
    requires forall i :: 0 <= i < |props| ==> Dense(props[i].value)
    ensures Dense(ValueAt(props, key))
  {
    if props != [] && props[0].key != key { ValueDense(props[1..], key); }
  }

  lemma {:induction false} DenseForcesNone(definition: JsValue, depth: nat)
    requires Dense(definition) && SchemaOf(definition, depth).Some?
    ensures !ForcesHole(SchemaOf(definition, depth).value)
    decreases definition
  {
    match SchemaOf(definition, depth).value
    case StringSchema(_, _, values) =>
      var list := Read(definition.props, "enum");
      ValueDense(definition.props, Units("enum"));
      assert SchemaOf(definition, depth) == StringSchemaOf(definition.props) && values == SlotsOf(list);
      if values.Some? && |values.value| == 1 { assert values.value[0] == Named(list.items[0].text); }
    case ObjectSchema(properties, _) =>
      var definitions := Read(definition.props, "properties");
      ValueDense(definition.props, Units("properties"));
      ValueAtIn(definition.props, Units("properties"));
      assert SchemaOf(definition, depth) == ObjectSchemaOf(definition, depth);
      PropertiesAre(definitions, |definitions.props|, depth);
      forall i | 0 <= i < |properties| ensures !ForcesHole(properties[i].schema) {
        DenseForcesNone(definitions.props[i].value, depth + 1);
      }
    case _ =>
  }

  /** Every definition without holes that the validator accepts has a value validateValue accepts. */
  lemma {:induction false} AcceptedSchemaIsInhabited(definition: JsValue) returns (v: JsValue)
    requires Proper(definition) && Dense(definition) && SchemaOf(definition, 1).Some?
    ensures Proper(v) && Validate(SchemaOf(definition, 1).value, v, 1).None?
  {
    SchemaOfSane(definition, 1);
    DenseForcesNone(definition, 1);
    v := Sample(SchemaOf(definition, 1).value, 1);
  }

  /** A string schema whose enum is one hole. */
  const SPARSE := JObject([Prop(Units("type"), JString(Units("string"))), Prop(Units("enum"), JArray([JHole]))])

  /** It is accepted, and accepts nothing. */
  lemma {:induction false} SparseEnumIsEmpty(v: JsValue)
    ensures SchemaOf(SPARSE, 1) == Some(StringSchema(None, None, Some([Empty])))
    ensures Validate(SchemaOf(SPARSE, 1).value, v, 1).Some?
  {
    var kind, list := Prop(Units("type"), JString(Units("string"))), Prop(Units("enum"), JArray([JHole]));
    var props := [kind, list];
    assert |Units("minLength")| == |Units("maxLength")| == 9 && |Units("type")| == |Units("enum")| == 4;
    assert Units("type")[0] == 116 && Units("enum")[0] == 101;
    assert props[1..] == [list] && props[1..][1..] == [];
    var slots := SlotsOf(list.value).value;
    assert |slots| == 1 && slots[0] == Empty;
    assert slots == [Empty];
    assert StringSchemaOf(props) == Some(StringSchema(None, None, Some([Empty])));
  }

  /** validateValue never reports nesting: what is too deep is refused for what it is, or the definition was. */
  lemma {:induction false} NoDepthError(definition: JsValue, v: JsValue)
    requires Proper(definition) && SchemaOf(definition, 1).Some?
    ensures Validate(SchemaOf(definition, 1).value, v, 1) != Some(TooDeep)
  {
    SchemaOfSane(definition, 1);
    NeverDeep(SchemaOf(definition, 1).value, v, 1);
  }
}
