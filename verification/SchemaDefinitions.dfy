/**
 * Which definitions the validator accepts, and as what: read off the definition's properties, without
 * the order in which they are looked at.
 */
module SchemaDefinitions {
  import opened Wrappers
  import opened JsValues
  import opened SchemaValidation
  import opened SchemaValues
  import opened SchemaConformance

  // ----- properties -----------------------------------------------------------------------

  /** The object has the value, which is not undefined, under the key. */
  predicate Gives(props: seq<Prop>, key: string, value: JsValue) {
    !value.JUndefined? && exists i :: 0 <= i < |props| && props[i].key == Units(key) && props[i].value == value
  }

  /** The object has nothing under the key, or undefined. */
  predicate Lacks(props: seq<Prop>, key: string) {
    forall i :: 0 <= i < |props| && props[i].key == Units(key) ==> props[i].value.JUndefined?
  }

  predicate OnlyKeys(props: seq<Prop>, keys: seq<JsString>) {
    forall i :: 0 <= i < |props| ==> props[i].key in keys
  }

  lemma {:induction false} ReadIs(props: seq<Prop>, key: string)
    requires DistinctKeys(props)
    ensures forall value :: Gives(props, key, value) <==> Read(props, key) == value && !value.JUndefined?
    ensures Lacks(props, key) <==> Read(props, key).JUndefined?
  {
    ValueAtIs(props, Units(key));
    ValueAtIn(props, Units(key));
  }

  lemma {:induction false} AllowedAre(props: seq<Prop>, keys: seq<JsString>)
    ensures Allowed(props, keys) <==> OnlyKeys(props, keys)
  {
    if OnlyKeys(props, keys) {
      forall p <- props ensures p.key in keys { var i :| 0 <= i < |props| && props[i] == p; }
    }
    if Allowed(props, keys) {
      forall i | 0 <= i < |props| ensures props[i].key in keys { assert props[i] in props; }
    }
  }

  // ----- numbers and lists -----------------------------------------------------------------

  /** The number is written x; zero may have a sign. */
  predicate GivesNumber(props: seq<Prop>, key: string, x: real) {
    Gives(props, key, JNumber(Finite(x))) || (x == 0.0 && Gives(props, key, JNumber(NegativeZero)))
  }

  /** A limit that is not given, or a whole number from 0 that a double holds exactly. */
  predicate LimitGiven(props: seq<Prop>, key: string, limit: Option<int>) {
    match limit
    case None => Lacks(props, key)
    case Some(n) => 0 <= n <= 9007199254740991 && GivesNumber(props, key, n as real)
  }

  predicate BoundGiven(props: seq<Prop>, key: string, integer: bool, bound: Option<real>) {
    match bound
    case None => Lacks(props, key)
    case Some(x) => GivesNumber(props, key, x) && (integer ==> x == x.Floor as real && -9007199254740991.0 <= x <= 9007199254740991.0)
  }

  lemma {:induction false} NumberRead(props: seq<Prop>, key: string)
    requires DistinctKeys(props)
    ensures forall x :: GivesNumber(props, key, x) <==>
                        Read(props, key).JNumber? && IsFinite(Read(props, key).number) && Magnitude(Read(props, key).number) == x
  {
    ReadIs(props, key);
  }

  lemma {:induction false} LimitRead(props: seq<Prop>, key: string, limit: Option<int>)
    requires DistinctKeys(props)
    ensures LimitGiven(props, key, limit) <==> LimitOk(Read(props, key)) && LimitOf(Read(props, key)) == limit
  {
    ReadIs(props, key);
    NumberRead(props, key);
    var v := Read(props, key);
    if IsLimit(v) {
      assert Magnitude(v.number) == Magnitude(v.number).Floor as real;
    }
    if limit.Some? { assert (limit.value as real).Floor == limit.value; }
  }

  lemma {:induction false} BoundRead(props: seq<Prop>, key: string, integer: bool, bound: Option<real>)
    requires DistinctKeys(props)
    ensures BoundGiven(props, key, integer, bound) <==> BoundOk(Read(props, key), integer) && BoundOf(Read(props, key)) == bound
  {
    ReadIs(props, key);
    NumberRead(props, key);
    var v := Read(props, key);
    if v.JNumber? && IsFinite(v.number) {
      var x := Magnitude(v.number);
      assert -9007199254740991.0 <= x <= 9007199254740991.0 && x == x.Floor as real <==> IsSafeInteger(v.number);
    }
  }

  /** The array's elements, holes included. */
  predicate Lists(v: JsValue, slots: seq<Slot>) {
    && v.JArray? && |v.items| == |slots|
    && forall i :: 0 <= i < |slots| ==> v.items[i] == match slots[i] case Named(text) => JString(text) case Empty => JHole
  }

  lemma {:induction false} ListRead(v: JsValue, slots: seq<Slot>)
    ensures Lists(v, slots) <==> SlotsOf(v) == Some(slots)
  {
    if Lists(v, slots) {
      assert forall i :: 0 <= i < |v.items| ==> v.items[i].JString? || v.items[i].JHole?;
      assert SlotsOf(v).value == slots;
    }
  }

  predicate Unequal(slots: seq<Slot>) {
    forall i, j :: 0 <= i < j < |slots| ==> slots[i] != slots[j]
  }

  /** Distinct strings, at least one element, each string within the length limits. */
  predicate EnumGiven(props: seq<Prop>, low: Option<int>, high: Option<int>, values: Option<seq<Slot>>) {
    match values
    case None => Lacks(props, "enum")
    case Some(slots) =>
      && slots != [] && Unequal(slots)
      && (exists i :: 0 <= i < |props| && props[i].key == Units("enum") && Lists(props[i].value, slots))
      && forall i :: 0 <= i < |slots| && slots[i].Named? ==> Between(|slots[i].text| - Pairs(slots[i].text), low, high)
  }

  predicate Between(n: int, low: Option<int>, high: Option<int>) {
    (low.Some? ==> low.value <= n) && (high.Some? ==> n <= high.value)
  }

  /** What is listed under a key. */
  lemma {:induction false} ListedRead(props: seq<Prop>, key: string, slots: seq<Slot>)
    requires DistinctKeys(props)
    ensures (exists i :: 0 <= i < |props| && props[i].key == Units(key) && Lists(props[i].value, slots)) <==> SlotsOf(Read(props, key)) == Some(slots)
  {
    ReadIs(props, key);
    ListRead(Read(props, key), slots);
    if i :| 0 <= i < |props| && props[i].key == Units(key) && Lists(props[i].value, slots) {
      assert Gives(props, key, props[i].value);
    }
    if SlotsOf(Read(props, key)) == Some(slots) { assert Gives(props, key, Read(props, key)); }
  }

  lemma {:induction false} EnumRead(props: seq<Prop>, low: Option<int>, high: Option<int>, values: Option<seq<Slot>>)
    requires DistinctKeys(props)
    ensures EnumGiven(props, low, high, values) <==> EnumOk(Read(props, "enum"), low, high) && SlotsOf(Read(props, "enum")) == values
  {
    ReadIs(props, "enum");
    if values.Some? {
      ListedRead(props, "enum", values.value);
      forall i | 0 <= i < |values.value| && values.value[i].Named?
        ensures Between(|values.value[i].text| - Pairs(values.value[i].text), low, high) <==> Within(CodePoints(values.value[i].text), low, high) {
        LengthLessPairs(values.value[i].text);
      }
      if forall i :: 0 <= i < |values.value| && values.value[i].Named? ==> Within(CodePoints(values.value[i].text), low, high) {
        forall s <- values.value | s.Named? ensures Within(CodePoints(s.text), low, high) { var i :| 0 <= i < |values.value| && values.value[i] == s; }
      }
    }
  }

  // ----- definitions --------------------------------------------------------------------------

  /** Distinct names, each of a declared property. */
  predicate RequiredGiven(props: seq<Prop>, required: seq<Slot>, properties: seq<Property>) {
    && Unequal(required) && (exists i :: 0 <= i < |props| && props[i].key == Units("required") && Lists(props[i].value, required))
    && forall j :: 0 <= j < |required| ==> DeclaredSlot(required[j], properties)
  }

  predicate DeclaredSlot(slot: Slot, properties: seq<Property>) {
    exists k :: 0 <= k < |properties| && Stands(slot, properties[k].key)
  }

  /** The definition v says what s does, at a depth within the nesting limit. */
  predicate Describes(v: JsValue, s: Schema, depth: nat)
    decreases s
  {
    && depth <= 16 && v.JObject?
    && match s
       case StringSchema(low, high, values) =>
         && Gives(v.props, "type", JString(Units("string"))) && OnlyKeys(v.props, [Units("type"), Units("minLength"), Units("maxLength"), Units("enum")])
         && LimitGiven(v.props, "minLength", low) && LimitGiven(v.props, "maxLength", high) && (low.Some? && high.Some? ==> low.value <= high.value)
         && EnumGiven(v.props, low, high, values)
       case NumberSchema(integer, low, high) =>
         && Gives(v.props, "type", JString(if integer then Units("integer") else Units("number")))
         && OnlyKeys(v.props, [Units("type"), Units("minimum"), Units("maximum")])
         && BoundGiven(v.props, "minimum", integer, low) && BoundGiven(v.props, "maximum", integer, high) && (low.Some? && high.Some? ==> low.value <= high.value)
       case BooleanSchema => Gives(v.props, "type", JString(Units("boolean"))) && OnlyKeys(v.props, [Units("type")])
       case NullSchema => Gives(v.props, "type", JString(Units("null"))) && OnlyKeys(v.props, [Units("type")])
       case ArraySchema(items, maxItems) =>
         && Gives(v.props, "type", JString(Units("array"))) && OnlyKeys(v.props, [Units("type"), Units("items"), Units("maxItems")])
         && LimitGiven(v.props, "maxItems", Some(maxItems))
         && exists i :: 0 <= i < |v.props| && v.props[i].key == Units("items") && Describes(v.props[i].value, items, depth + 1)
       case ObjectSchema(properties, required) =>
         && Gives(v.props, "type", JString(Units("object"))) && Gives(v.props, "additionalProperties", JBool(false))
         && OnlyKeys(v.props, [Units("type"), Units("properties"), Units("required"), Units("additionalProperties")])
         && RequiredGiven(v.props, required, properties)
         && exists i :: 0 <= i < |v.props| && v.props[i].key == Units("properties") && v.props[i].value.JObject?
                        && |v.props[i].value.props| == |properties|
                        && forall k :: 0 <= k < |properties| ==>
                             v.props[i].value.props[k].key == properties[k].key && Describes(v.props[i].value.props[k].value, properties[k].schema, depth + 1)
  }

  lemma {:induction false} StringDescribed(v: JsValue, s: Schema, depth: nat)
    requires s.StringSchema? && v.JObject? && Proper(v) && depth <= 16 && Read(v.props, "type") == JString(Units("string"))
    ensures Describes(v, s, depth) <==> StringSchemaOf(v.props) == Some(s)
  {
    ReadIs(v.props, "type");
    AllowedAre(v.props, [Units("type"), Units("minLength"), Units("maxLength"), Units("enum")]);
    LimitRead(v.props, "minLength", s.minLength);
    LimitRead(v.props, "maxLength", s.maxLength);
    EnumRead(v.props, s.minLength, s.maxLength, s.enumeration);
  }

  lemma {:induction false} NumberDescribed(v: JsValue, s: Schema, depth: nat)
    requires s.NumberSchema? && v.JObject? && Proper(v) && depth <= 16
    requires Read(v.props, "type") == JString(if s.integer then Units("integer") else Units("number"))
    ensures Describes(v, s, depth) <==> NumberSchemaOf(v.props, s.integer) == Some(s)
  {
    ReadIs(v.props, "type");
    AllowedAre(v.props, [Units("type"), Units("minimum"), Units("maximum")]);
    BoundRead(v.props, "minimum", s.integer, s.minimum);
    BoundRead(v.props, "maximum", s.integer, s.maximum);
  }

  lemma {:induction false} ItemsDescribed(v: JsValue, s: Schema, depth: nat)
    requires s.ArraySchema? && v.JObject? && Proper(v)
    ensures var items := Read(v.props, "items");
            (exists i :: 0 <= i < |v.props| && v.props[i].key == Units("items") && Describes(v.props[i].value, s.items, depth + 1)) <==>
            !items.JUndefined? && SchemaOf(items, depth + 1) == Some(s.items)
    decreases s, 0
  {
    var items := Read(v.props, "items");
    ReadIs(v.props, "items");
    if !items.JUndefined? {
      assert Gives(v.props, "items", items);
      var i :| 0 <= i < |v.props| && v.props[i].key == Units("items") && v.props[i].value == items;
      DescribesExactly(items, s.items, depth + 1);
    }
    if i :| 0 <= i < |v.props| && v.props[i].key == Units("items") && Describes(v.props[i].value, s.items, depth + 1) {
      assert Gives(v.props, "items", v.props[i].value);
    }
  }

  lemma {:induction false} ArrayDescribed(v: JsValue, s: Schema, depth: nat)
    requires s.ArraySchema? && v.JObject? && Proper(v) && depth <= 16 && Read(v.props, "type") == JString(Units("array"))
    ensures Describes(v, s, depth) <==> ArraySchemaOf(v, depth) == Some(s)
    decreases s, 1
  {
    assert Gives(v.props, "type", JString(Units("array"))) by { ReadIs(v.props, "type"); }
    AllowedAre(v.props, [Units("type"), Units("items"), Units("maxItems")]);
    LimitRead(v.props, "maxItems", Some(s.maxItems));
    ItemsDescribed(v, s, depth);
  }

  predicate MatchesAt(p: Prop, property: Property, depth: nat) {
    p.key == property.key && SchemaOf(p.value, depth) == Some(property.schema)
  }

  /** The properties are the definitions', each under its key. */
  predicate Matches(v: JsValue, properties: seq<Property>, depth: nat)
    requires v.JObject?
  {
    |v.props| == |properties| && forall k :: 0 <= k < |properties| ==> MatchesAt(v.props[k], properties[k], depth + 1)
  }

  predicate Accepted(p: Prop, depth: nat) {
    SchemaOf(p.value, depth).Some?
  }

  lemma {:induction false} PropertiesSome(v: JsValue, n: nat, depth: nat)
    requires v.JObject? && n <= |v.props| && forall k :: 0 <= k < n ==> Accepted(v.props[k], depth + 1)
    ensures PropertiesOf(v, n, depth).Some?
  {
    if n > 0 {
      PropertiesSome(v, n - 1, depth);
      assert Accepted(v.props[n - 1], depth + 1);
    }
  }

  lemma {:induction false} PropertiesMatch(v: JsValue, depth: nat, properties: seq<Property>)
    requires v.JObject?
    ensures PropertiesOf(v, |v.props|, depth) == Some(properties) <==> Matches(v, properties, depth)
  {
    if PropertiesOf(v, |v.props|, depth) == Some(properties) { PropertiesAre(v, |v.props|, depth); }
    if Matches(v, properties, depth) {
      forall k | 0 <= k < |v.props| ensures Accepted(v.props[k], depth + 1) { assert MatchesAt(v.props[k], properties[k], depth + 1); }
      PropertiesSome(v, |v.props|, depth);
      PropertiesAre(v, |v.props|, depth);
      var ps := PropertiesOf(v, |v.props|, depth).value;
      forall k | 0 <= k < |ps| ensures ps[k] == properties[k] { assert MatchesAt(v.props[k], properties[k], depth + 1); }
      assert ps == properties;
    }
  }

  /** Every definition describes its property's schema. */
  predicate AllDescribe(v: JsValue, properties: seq<Property>, depth: nat)
    requires v.JObject?
  {
    |v.props| == |properties| && forall k :: 0 <= k < |properties| ==> v.props[k].key == properties[k].key && Describes(v.props[k].value, properties[k].schema, depth + 1)
  }

  lemma {:induction false} AllDescribed(s: Schema, v: JsValue, depth: nat)
    requires s.ObjectSchema? && v.JObject? && Proper(v)
    ensures AllDescribe(v, s.properties, depth) <==> PropertiesOf(v, |v.props|, depth) == Some(s.properties)
    decreases s, 0, 0
  {
    PropertiesMatch(v, depth, s.properties);
    if |v.props| == |s.properties| {
      forall k | 0 <= k < |s.properties|
        ensures Describes(v.props[k].value, s.properties[k].schema, depth + 1) <==> SchemaOf(v.props[k].value, depth + 1) == Some(s.properties[k].schema) {
        DescribesExactly(v.props[k].value, s.properties[k].schema, depth + 1);
      }
    }
  }

  lemma {:induction false} SlotDeclared(slot: Slot, definitions: seq<Prop>, properties: seq<Property>)
    requires |definitions| == |properties| && forall k :: 0 <= k < |properties| ==> definitions[k].key == properties[k].key
    ensures Has(definitions, KeyOf(slot)) <==> DeclaredSlot(slot, properties)
  {
    SlotPresent(slot, definitions);
    if k :| 0 <= k < |properties| && Stands(slot, properties[k].key) { assert Stands(slot, definitions[k].key); }
    if k :| 0 <= k < |definitions| && Stands(slot, definitions[k].key) { assert Stands(slot, properties[k].key); }
  }

  lemma {:induction false} RequiredDeclared(required: seq<Slot>, definitions: seq<Prop>, properties: seq<Property>)
    requires |definitions| == |properties| && forall k :: 0 <= k < |properties| ==> definitions[k].key == properties[k].key
    ensures (forall slot <- required :: Has(definitions, KeyOf(slot))) <==> forall j :: 0 <= j < |required| ==> DeclaredSlot(required[j], properties)
  {
    if slot :| slot in required && !Has(definitions, KeyOf(slot)) {
      SlotDeclared(slot, definitions, properties);
      var j :| 0 <= j < |required| && required[j] == slot;
      assert !DeclaredSlot(required[j], properties);
    }
    if j :| 0 <= j < |required| && !DeclaredSlot(required[j], properties) {
      SlotDeclared(required[j], definitions, properties);
      assert required[j] in required;
    }
  }

  lemma {:induction false} RequiredRead(props: seq<Prop>, required: seq<Slot>, definitions: seq<Prop>, properties: seq<Property>)
    requires DistinctKeys(props)
    requires |definitions| == |properties| && forall k :: 0 <= k < |properties| ==> definitions[k].key == properties[k].key
    ensures RequiredGiven(props, required, properties) <==>
            SlotsOf(Read(props, "required")) == Some(required) && NoRepeats(required) && forall slot <- required :: Has(definitions, KeyOf(slot))
  {
    ListedRead(props, "required", required);
    RequiredDeclared(required, definitions, properties);
    assert Unequal(required) <==> NoRepeats(required);
  }

  lemma {:induction false} ObjectDescribed(v: JsValue, s: Schema, depth: nat)
    requires s.ObjectSchema? && v.JObject? && Proper(v) && depth <= 16 && Read(v.props, "type") == JString(Units("object"))
    ensures Describes(v, s, depth) <==> ObjectSchemaOf(v, depth) == Some(s)
    decreases s, 1
  {
    var definitions := Read(v.props, "properties");
    assert Gives(v.props, "type", JString(Units("object"))) && (Gives(v.props, "additionalProperties", JBool(false)) <==> Read(v.props, "additionalProperties") == JBool(false)) by {
      ReadIs(v.props, "type");
      ReadIs(v.props, "additionalProperties");
    }
    AllowedAre(v.props, [Units("type"), Units("properties"), Units("required"), Units("additionalProperties")]);
    DefinitionsRead(v, s, depth);
    if definitions.JObject? && AllDescribe(definitions, s.properties, depth) {
      RequiredRead(v.props, s.required, definitions.props, s.properties);
    }
  }

  /** What stands under the key of the property definitions. */
  lemma {:induction false} DefinitionsRead(v: JsValue, s: Schema, depth: nat)
    requires s.ObjectSchema? && v.JObject? && Proper(v)
    ensures var definitions := Read(v.props, "properties");
            && ((exists i :: 0 <= i < |v.props| && v.props[i].key == Units("properties") && v.props[i].value.JObject?
                             && AllDescribe(v.props[i].value, s.properties, depth)) <==>
                definitions.JObject? && AllDescribe(definitions, s.properties, depth))
            && (definitions.JObject? ==> (AllDescribe(definitions, s.properties, depth) <==> PropertiesOf(definitions, |definitions.props|, depth) == Some(s.properties)))
    decreases s, 0, 1
  {
    var definitions := Read(v.props, "properties");
    ReadIs(v.props, "properties");
    if definitions.JObject? {
      assert Gives(v.props, "properties", definitions);
      var i :| 0 <= i < |v.props| && v.props[i].key == Units("properties") && v.props[i].value == definitions;
      AllDescribed(s, definitions, depth);
    }
    if i :| 0 <= i < |v.props| && v.props[i].key == Units("properties") && v.props[i].value.JObject? {
      assert Gives(v.props, "properties", v.props[i].value);
    }
  }

  /** No type is named like another. */
  lemma {:induction false} KindsDiffer()
    ensures |Units("string")| == |Units("number")| == |Units("object")| == 6 && |Units("integer")| == |Units("boolean")| == 7
    ensures |Units("null")| == 4 && |Units("array")| == 5
    ensures Units("string")[0] == 115 && Units("number")[0] == 110 && Units("object")[0] == 111 && Units("integer")[0] == 105 && Units("boolean")[0] == 98
  {
  }

  lemma {:induction false} KindGiven(props: seq<Prop>, kind: JsString)
    requires DistinctKeys(props)
    ensures Gives(props, "type", JString(kind)) <==> Read(props, "type") == JString(kind)
  {
    ReadIs(props, "type");
  }

  lemma {:induction false} PlainDescribed(v: JsValue, s: Schema, depth: nat)
    requires (s.BooleanSchema? || s.NullSchema?) && Proper(v) && v.JObject? && depth <= 16
    ensures SchemaOf(v, depth) == Some(s) <==> Describes(v, s, depth)
  {
    KindsDiffer();
    KindGiven(v.props, Units("boolean"));
    KindGiven(v.props, Units("null"));
    AllowedAre(v.props, [Units("type")]);
  }

  lemma {:induction false} StringKind(props: seq<Prop>)
    ensures StringSchemaOf(props).Some? ==> StringSchemaOf(props).value.StringSchema?
  {
  }

  lemma {:induction false} NumberKind(props: seq<Prop>, integer: bool)
    ensures NumberSchemaOf(props, integer).Some? ==> NumberSchemaOf(props, integer).value.NumberSchema? && NumberSchemaOf(props, integer).value.integer == integer
  {
  }

  lemma {:induction false} ArrayKind(v: JsValue, depth: nat)
    requires v.JObject?
    ensures ArraySchemaOf(v, depth).Some? ==> ArraySchemaOf(v, depth).value.ArraySchema?
  {
  }

  lemma {:induction false} ObjectKind(v: JsValue, depth: nat)
    requires v.JObject?
    ensures ObjectSchemaOf(v, depth).Some? ==> ObjectSchemaOf(v, depth).value.ObjectSchema?
  {
  }

  /** What a definition of each kind is accepted as. */
  lemma {:induction false} KindDecides(v: JsValue, depth: nat)
    requires v.JObject? && depth <= 16
    ensures var kind := Read(v.props, "type");
            && (SchemaOf(v, depth).Some? && SchemaOf(v, depth).value.StringSchema? ==> kind == JString(Units("string")))
            && (SchemaOf(v, depth).Some? && SchemaOf(v, depth).value.NumberSchema? ==>
                  kind == JString(if SchemaOf(v, depth).value.integer then Units("integer") else Units("number")))
            && (SchemaOf(v, depth).Some? && SchemaOf(v, depth).value.ArraySchema? ==> kind == JString(Units("array")))
            && (SchemaOf(v, depth).Some? && SchemaOf(v, depth).value.ObjectSchema? ==> kind == JString(Units("object")))
    ensures var kind := Read(v.props, "type");
            && (kind == JString(Units("string")) ==> SchemaOf(v, depth) == StringSchemaOf(v.props))
            && (kind == JString(Units("number")) ==> SchemaOf(v, depth) == NumberSchemaOf(v.props, false))
            && (kind == JString(Units("integer")) ==> SchemaOf(v, depth) == NumberSchemaOf(v.props, true))
            && (kind == JString(Units("array")) ==> SchemaOf(v, depth) == ArraySchemaOf(v, depth))
            && (kind == JString(Units("object")) ==> SchemaOf(v, depth) == ObjectSchemaOf(v, depth))
  {
    KindsDiffer();
    StringKind(v.props);
    NumberKind(v.props, false);
    NumberKind(v.props, true);
    ArrayKind(v, depth);
    ObjectKind(v, depth);
  }

  lemma {:induction false} StringExactly(v: JsValue, s: Schema, depth: nat)
    requires s.StringSchema? && v.JObject? && Proper(v) && depth <= 16
    ensures SchemaOf(v, depth) == Some(s) <==> Describes(v, s, depth)
  {
    KindDecides(v, depth);
    KindGiven(v.props, Units("string"));
    if Read(v.props, "type") == JString(Units("string")) { StringDescribed(v, s, depth); }
  }

  lemma {:induction false} NumberExactly(v: JsValue, s: Schema, depth: nat)
    requires s.NumberSchema? && v.JObject? && Proper(v) && depth <= 16
    ensures SchemaOf(v, depth) == Some(s) <==> Describes(v, s, depth)
  {
    var name := if s.integer then Units("integer") else Units("number");
    KindDecides(v, depth);
    KindGiven(v.props, name);
    if Read(v.props, "type") == JString(name) {
      NumberDescribed(v, s, depth);
      assert SchemaOf(v, depth) == NumberSchemaOf(v.props, s.integer);
    }
  }

  lemma {:induction false} ArrayExactly(v: JsValue, s: Schema, depth: nat)
    requires s.ArraySchema? && v.JObject? && Proper(v) && depth <= 16
    ensures SchemaOf(v, depth) == Some(s) <==> Describes(v, s, depth)
    decreases s, 2
  {
    KindDecides(v, depth);
    KindGiven(v.props, Units("array"));
    if Read(v.props, "type") == JString(Units("array")) { ArrayDescribed(v, s, depth); }
  }

  lemma {:induction false} ObjectExactly(v: JsValue, s: Schema, depth: nat)
    requires s.ObjectSchema? && v.JObject? && Proper(v) && depth <= 16
    ensures SchemaOf(v, depth) == Some(s) <==> Describes(v, s, depth)
    decreases s, 2
  {
    KindDecides(v, depth);
    KindGiven(v.props, Units("object"));
    if Read(v.props, "type") == JString(Units("object")) { ObjectDescribed(v, s, depth); }
  }

  /** A definition is accepted, as the schema it describes and as no other. */
  lemma {:induction false} DescribesExactly(v: JsValue, s: Schema, depth: nat)
    requires Proper(v)
    ensures SchemaOf(v, depth) == Some(s) <==> Describes(v, s, depth)
    decreases s, 3
  {
    if v.JObject? && depth <= 16 {
      match s
      case StringSchema(_, _, _) => StringExactly(v, s, depth);
      case NumberSchema(_, _, _) => NumberExactly(v, s, depth);
      case ArraySchema(_, _) => ArrayExactly(v, s, depth);
      case ObjectSchema(_, _) => ObjectExactly(v, s, depth);
      case _ => PlainDescribed(v, s, depth);
    }
  }
}
