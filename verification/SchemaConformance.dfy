/**
 * What validateValue means: the values a schema describes, said without the order of its checks,
 * and the validator accepting exactly those.
 */
module SchemaConformance {
  import opened Wrappers
  import opened JsValues
  import opened SchemaValidation
  import opened SchemaValues

  // ----- lengths ----------------------------------------------------------------------

  /** How many places hold a high surrogate right before a low one. */
  function Pairs(text: JsString): nat {
    if |text| < 2 then 0
    else Pairs(text[1..]) + if 0xd800 <= text[0] <= 0xdbff && 0xdc00 <= text[1] <= 0xdfff then 1 else 0
  }

  /** A length counts code units, less one for each surrogate pair. */
  lemma {:induction false} LengthLessPairs(text: JsString)
    ensures CodePoints(text) + Pairs(text) == |text|
  {
    if |text| > 1 && IsHigh(text[0]) && IsLow(text[1]) {
      assert text[1..][1..] == text[2..] && text[1..][0] == text[1];
      LengthLessPairs(text[2..]);
    } else if text != [] {
      LengthLessPairs(text[1..]);
    }
  }

  // ----- values -------------------------------------------------------------------------

  predicate AtLeast(x: real, low: Option<real>) {
    low.None? || x >= low.value
  }

  predicate AtMost(x: real, high: Option<real>) {
    high.None? || x <= high.value
  }

  /** A number of the kind asked for, within the bounds. */
  predicate Fits(x: real, integer: bool, low: Option<real>, high: Option<real>) {
    && (integer ==> x == x.Floor as real && -9007199254740991.0 <= x <= 9007199254740991.0)
    && AtLeast(x, low) && AtMost(x, high)
  }

  /** The property a required name stands for. */
  predicate Stands(slot: Slot, key: JsString) {
    match slot
    case Named(text) => key == text
    case Empty => key == Units("undefined")
  }

  /** The object has declared properties only. */
  predicate AllDeclared(props: seq<Prop>, properties: seq<Property>) {
    forall i :: 0 <= i < |props| ==> exists k :: 0 <= k < |properties| && properties[k].key == props[i].key
  }

  predicate Present(slot: Slot, props: seq<Prop>) {
    exists i :: 0 <= i < |props| && Stands(slot, props[i].key)
  }

  /** The object has every required property. */
  predicate AllPresent(required: seq<Slot>, props: seq<Prop>) {
    forall j :: 0 <= j < |required| ==> Present(required[j], props)
  }

  /** The values a schema describes. */
  predicate Conforms(s: Schema, v: JsValue)
    decreases s
  {
    match s
    case StringSchema(low, high, values) =>
      && v.JString?
      && (values.Some? ==> exists i :: 0 <= i < |values.value| && values.value[i] == Named(v.text))
      && (low.Some? ==> |v.text| - Pairs(v.text) >= low.value)
      && (high.Some? ==> |v.text| - Pairs(v.text) <= high.value)
    case NumberSchema(integer, low, high) =>
      (match v
       case JNumber(Finite(x)) => Fits(x, integer, low, high)
       case JNumber(NegativeZero) => Fits(0.0, integer, low, high)
       case _ => false)
    case BooleanSchema => v.JBool?
    case NullSchema => v == JNull
    case ArraySchema(items, maxItems) => v.JArray? && |v.items| <= maxItems && forall i :: 0 <= i < |v.items| ==> Conforms(items, v.items[i])
    case ObjectSchema(properties, required) =>
      && v.JObject?
      && AllDeclared(v.props, properties) && AllPresent(required, v.props)
      && forall k, i :: 0 <= k < |properties| && 0 <= i < |v.props| && v.props[i].key == properties[k].key ==>
           Conforms(properties[k].schema, v.props[i].value)
  }

  lemma {:induction false} StringConforms(s: Schema, v: JsValue)
    requires s.StringSchema?
    ensures StringProblem(s, v).None? <==> Conforms(s, v)
  {
    if v.JString? { LengthLessPairs(v.text); }
  }

  lemma {:induction false} NumberConforms(s: Schema, v: JsValue)
    requires s.NumberSchema?
    ensures NumberProblem(s, v).None? <==> Conforms(s, v)
  {
    if v.JNumber? && IsFinite(v.number) {
      var x := Magnitude(v.number);
      assert -9007199254740991.0 <= x <= 9007199254740991.0 && x == x.Floor as real <==> IsSafeInteger(v.number);
    }
  }

  lemma {:induction false} NothingUndefined(s: Schema)
    ensures !Conforms(s, JUndefined) && !Conforms(s, JHole)
  {
  }

  lemma {:induction false} ItemsConform(s: Schema, items: seq<JsValue>, depth: nat)
    requires s.ArraySchema? && Sane(s, depth) && forall i :: 0 <= i < |items| ==> Proper(items[i])
    ensures FirstBadItem(s, items, depth).None? <==> forall i :: 0 <= i < |items| ==> Conforms(s.items, items[i])
    decreases s, 0, |items|
  {
    if items != [] {
      ValidatesExactly(s.items, Element(items[0]), depth + 1);
      NothingUndefined(s.items);
      ItemsConform(s, items[1..], depth);
      assert items == [items[0]] + items[1..];
    }
  }

  /** Whatever the object has under a declared key is what that key's schema describes. */
  predicate PresentConforms(s: Schema, k: int, props: seq<Prop>)
    requires s.ObjectSchema? && 0 <= k < |s.properties|
  {
    forall i :: 0 <= i < |props| && props[i].key == s.properties[k].key ==> Conforms(s.properties[k].schema, props[i].value)
  }

  lemma {:induction false} PresentIs(s: Schema, k: nat, props: seq<Prop>, depth: nat)
    requires s.ObjectSchema? && k < |s.properties| && Sane(s.properties[k].schema, depth + 1)
    requires DistinctKeys(props) && forall i :: 0 <= i < |props| ==> Proper(props[i].value)
    ensures (Has(props, s.properties[k].key) ==> Validate(s.properties[k].schema, ValueAt(props, s.properties[k].key), depth + 1).None?) <==>
            PresentConforms(s, k, props)
    decreases s, 0, 0
  {
    var p := s.properties[k];
    if Has(props, p.key) {
      var q :| q in props && q.key == p.key;
      var i :| 0 <= i < |props| && props[i] == q;
      assert ValueAt(props, p.key) == props[i].value by { ValueAtIs(props, p.key); }
      ValidatesExactly(p.schema, props[i].value, depth + 1);
    }
  }

  lemma {:induction false} PropertiesConform(s: Schema, k: nat, props: seq<Prop>, depth: nat)
    requires s.ObjectSchema? && k <= |s.properties| && forall j :: 0 <= j < |s.properties| ==> Sane(s.properties[j].schema, depth + 1)
    requires DistinctKeys(props) && forall i :: 0 <= i < |props| ==> Proper(props[i].value)
    ensures FirstBadProperty(s, k, props, depth).None? <==> forall j :: k <= j < |s.properties| ==> PresentConforms(s, j, props)
    decreases s, 1, |s.properties| - k
  {
    if k < |s.properties| {
      PropertiesConform(s, k + 1, props, depth);
      PresentIs(s, k, props, depth);
    }
  }

  lemma {:induction false} ObjectConforms(s: Schema, v: JsValue, depth: nat)
    requires s.ObjectSchema? && Sane(s, depth) && v.JObject? && Proper(v)
    ensures Validate(s, v, depth).None? <==> Conforms(s, v)
    decreases s, 2
  {
    var unexpected, missing, bad := FirstUnexpected(v.props, s.properties), FirstMissing(s.required, v.props), FirstBadProperty(s, 0, v.props, depth);
    assert Validate(s, v, depth).None? <==> unexpected.None? && missing.None? && bad.None?;
    assert unexpected.None? <==> AllDeclared(v.props, s.properties) by {
      FirstUnexpectedIs(v.props, s.properties);
      DeclaredAre(v.props, s.properties);
    }
    assert missing.None? <==> AllPresent(s.required, v.props) by {
      FirstMissingIs(s.required, v.props);
      RequiredAre(s.required, v.props);
    }
    PropertiesConform(s, 0, v.props, depth);
    if bad.None? {
      forall k, i | 0 <= k < |s.properties| && 0 <= i < |v.props| && v.props[i].key == s.properties[k].key
        ensures Conforms(s.properties[k].schema, v.props[i].value) {
        assert PresentConforms(s, k, v.props);
      }
    }
  }

  lemma {:induction false} DeclaredAre(props: seq<Prop>, properties: seq<Property>)
    ensures (forall p <- props :: Declares(properties, p.key)) <==> AllDeclared(props, properties)
  {
    if forall p <- props :: Declares(properties, p.key) {
      forall i | 0 <= i < |props| ensures exists k :: 0 <= k < |properties| && properties[k].key == props[i].key {
        assert props[i] in props;
        DeclaredKey(properties, props[i].key);
      }
    }
    if p :| p in props && !Declares(properties, p.key) {
      DeclaredKey(properties, p.key);
      var i :| 0 <= i < |props| && props[i] == p;
    }
  }

  lemma {:induction false} DeclaredKey(properties: seq<Property>, key: JsString)
    ensures Declares(properties, key) <==> exists k :: 0 <= k < |properties| && properties[k].key == key
  {
    if Declares(properties, key) {
      var p :| p in properties && p.key == key;
      var k :| 0 <= k < |properties| && properties[k] == p;
    }
  }

  lemma {:induction false} RequiredAre(required: seq<Slot>, props: seq<Prop>)
    ensures (forall slot <- required :: Has(props, KeyOf(slot))) <==> AllPresent(required, props)
  {
    forall slot: Slot ensures Has(props, KeyOf(slot)) <==> Present(slot, props) {
      SlotPresent(slot, props);
    }
    if AllPresent(required, props) {
      forall slot <- required ensures Present(slot, props) {
        var j :| 0 <= j < |required| && required[j] == slot;
      }
    }
  }

  lemma {:induction false} SlotPresent(slot: Slot, props: seq<Prop>)
    ensures Has(props, KeyOf(slot)) <==> Present(slot, props)
  {
    assert forall key :: Stands(slot, key) <==> key == KeyOf(slot);
    if Has(props, KeyOf(slot)) {
      var p :| p in props && p.key == KeyOf(slot);
      var i :| 0 <= i < |props| && props[i] == p;
      assert Stands(slot, props[i].key);
    }
  }

  /** The validator accepts exactly the values the schema describes. */
  lemma {:induction false} ValidatesExactly(s: Schema, v: JsValue, depth: nat)
    requires Sane(s, depth) && Proper(v)
    ensures Validate(s, v, depth).None? <==> Conforms(s, v)
    decreases s, 3
  {
    match s
    case StringSchema(_, _, _) => StringConforms(s, v);
    case NumberSchema(_, _, _) => NumberConforms(s, v);
    case ArraySchema(_, _) => if v.JArray? { ItemsConform(s, v.items, depth); }
    case ObjectSchema(_, _) => if v.JObject? { ObjectConforms(s, v, depth); }
    case _ =>
  }
}
