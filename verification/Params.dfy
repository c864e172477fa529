/** Channel parameters: which schemas may describe them, and the encoding that identifies them. */
module Params {
  import opened Wrappers
  import opened JsValues
  import opened SchemaValidation
  import opened SchemaValues
  import opened CanonicalJson

  // ----- parameter schemas --------------------------------------------------------------

  /** A parameter is a required string, boolean or integer. */
  predicate IsParameter(p: Property, required: seq<Slot>) {
    (p.schema.StringSchema? || p.schema.BooleanSchema? || (p.schema.NumberSchema? && p.schema.integer)) && Named(p.key) in required
  }

  predicate IsParamsSchema(s: Schema) {
    s.ObjectSchema? && forall p <- s.properties :: IsParameter(p, s.required)
  }

  method ValidateParamsSchema(s: Schema, path: seq<JsString>, list: IssueList) returns (ok: bool)
    modifies list
    ensures old(list.issues) <= list.issues
    ensures ok <==> IsParamsSchema(s)
    ensures ok <==> list.issues == old(list.issues)
  {
    if !s.ObjectSchema? {
      list.Push(path, InvalidParamsSchema);
      return false;
    }
    for i := 0 to |s.properties|
      invariant old(list.issues) <= list.issues
      invariant list.issues == old(list.issues) <==> forall p <- s.properties[..i] :: IsParameter(p, s.required)
    {
      var p := s.properties[i];
      ghost var was := list.issues;
      assert s.properties[..i + 1] == s.properties[..i] + [p];
      if !p.schema.StringSchema? && !p.schema.BooleanSchema? && !(p.schema.NumberSchema? && p.schema.integer) {
        list.Push(path + [Units("properties"), p.key], InvalidParamsSchema);
      }
      if Named(p.key) !in s.required { list.Push(path + [Units("properties"), p.key], InvalidParamsSchema); }
      assert was <= list.issues && (list.issues == was <==> IsParameter(p, s.required));
    }
    assert s.properties[..|s.properties|] == s.properties;
    ok := forall p <- s.properties :: IsParameter(p, s.required);
  }

  // ----- the encoding ---------------------------------------------------------------------

  function Signed(v: JsValue): JsValue {
    if v == JNumber(NegativeZero) then JNumber(Finite(0.0)) else v
  }

  /** The defined properties, with -0 as 0. */
  function NormalProps(sorted: seq<Prop>): seq<Prop> {
    if sorted == [] then []
    else
      var last := sorted[|sorted| - 1];
      NormalProps(sorted[..|sorted| - 1]) + if last.value.JUndefined? then [] else [Prop(last.key, Signed(last.value))]
  }

  function Normalized(v: JsValue): JsValue
    requires v.JObject?
  {
    JObject(NormalProps(Sorted(v.props)))
  }

  /** None for the canonical text stands for the TypeError; `EncodesEvery` shows there is none. */
  method CanonicalizeParams(s: Schema, v: JsValue) returns (r: Result<(JsValue, Option<seq<Token>>), Problem>)
    requires s.ObjectSchema?
    ensures match Validate(s, v, 1)
            case Some(problem) => r == Err(problem)
            case None => v.JObject? && r == Ok((Normalized(v), CanonicalText(Normalized(v))))
  {
    var problem := Validate(s, v, 1);
    if problem.Some? { return Err(problem.value); }
    var sorted := Sorted(v.props);
    var props: seq<Prop> := [];
    for i := 0 to |sorted|
      invariant props == NormalProps(sorted[..i])
    {
      assert sorted[..i + 1][..i] == sorted[..i];
      if !sorted[i].value.JUndefined? { props := props + [Prop(sorted[i].key, Signed(sorted[i].value))]; }
    }
    assert sorted[..|sorted|] == sorted;
    r := Ok((JObject(props), CanonicalText(JObject(props))));
  }

  // ----- what the encoding identifies -------------------------------------------------------

  lemma {:induction false} NormalPropsAre(sorted: seq<Prop>)
    requires Ascending(sorted)
    ensures Ascending(NormalProps(sorted))
    ensures forall q <- NormalProps(sorted) :: exists p <- sorted :: q.key == p.key && !p.value.JUndefined? && q.value == Signed(p.value)
    ensures forall p <- sorted :: !p.value.JUndefined? ==> Prop(p.key, Signed(p.value)) in NormalProps(sorted)
  {
    if sorted != [] {
      var init, last := sorted[..|sorted| - 1], sorted[|sorted| - 1];
      assert sorted == init + [last];
      NormalPropsAre(init);
      forall q <- NormalProps(init) ensures KeyLess(q.key, last.key) {
        var p :| p in init && q.key == p.key;
        var i :| 0 <= i < |init| && init[i] == p;
        assert sorted[i] == p;
      }
    }
  }

  lemma {:induction false} AscendingDistinct(props: seq<Prop>)
    requires Ascending(props)
    ensures DistinctKeys(props)
  {
    forall i, j | 0 <= i < j < |props| ensures props[i].key != props[j].key { KeyTotal(props[i].key, props[j].key); }
  }

  lemma {:induction false} SameAsSelf(v: JsValue)
    requires Proper(v)
    ensures Same(v, v)
  {
    match v
    case JArray(items) =>
      forall i | 0 <= i < |items| ensures SameItem(items[i], items[i]) { if !items[i].JHole? { SameAsSelf(items[i]); } }
    case JObject(props) =>
      forall i | 0 <= i < |props| ensures ValueAt(props, props[i].key) == props[i].value && Same(props[i].value, props[i].value) {
        ValueAtIs(props, props[i].key);
        SameAsSelf(props[i].value);
      }
    case _ =>
  }

  /** Reading the normalized parameters gives the originals, with -0 as 0. */
  lemma {:induction false} NormalReads(v: JsValue, key: JsString)
    requires v.JObject? && DistinctKeys(v.props)
    ensures DistinctKeys(Normalized(v).props) && ValueAt(Normalized(v).props, key) == Signed(ValueAt(v.props, key))
  {
    var sorted, normal := Sorted(v.props), Normalized(v).props;
    SortedIs(v.props);
    NormalPropsAre(sorted);
    AscendingDistinct(normal);
    ValueAtIs(v.props, key);
    ValueAtIs(normal, key);
    if Defined(normal, key) {
      var p :| p in sorted && key == p.key && !p.value.JUndefined?;
      assert p in v.props;
    }
    if Defined(v.props, key) {
      var p := Prop(key, ValueAt(v.props, key));
      assert p in sorted && Prop(key, Signed(p.value)) in normal;
    }
  }

  lemma {:induction false} NormalizedSame(v: JsValue)
    requires v.JObject? && Proper(v)
    ensures Same(v, Normalized(v))
  {
    var normal := Normalized(v).props;
    forall i | 0 <= i < |v.props| && !v.props[i].value.JUndefined?
      ensures Defined(normal, v.props[i].key) && Same(v.props[i].value, ValueAt(normal, v.props[i].key)) {
      NormalReads(v, v.props[i].key);
      ValueAtIs(v.props, v.props[i].key);
      SameAsSelf(v.props[i].value);
    }
    forall k | 0 <= k < |normal| && !normal[k].value.JUndefined? ensures Defined(v.props, normal[k].key) {
      NormalReads(v, normal[k].key);
      ValueAtIs(normal, normal[k].key);
    }
  }

  lemma {:induction false} NormalizedProper(v: JsValue)
    requires v.JObject? && Proper(v)
    ensures Proper(Normalized(v))
  {
    var normal := Normalized(v).props;
    NormalReads(v, []);
    SortedIs(v.props);
    NormalPropsAre(Sorted(v.props));
    forall i | 0 <= i < |normal| ensures Proper(normal[i].value) {
      assert normal[i] in normal;
      var p :| p in Sorted(v.props) && normal[i].value == Signed(p.value);
      assert p in v.props;
    }
  }

  lemma {:induction false} JsonNormalized(v: JsValue)
    requires v.JObject? && Proper(v) && IsJsonValue(v, 1)
    ensures IsJsonValue(Normalized(v), 1)
  {
    var normal := Normalized(v).props;
    SortedIs(v.props);
    NormalPropsAre(Sorted(v.props));
    forall i | 0 <= i < |normal| ensures IsJsonValue(normal[i].value, 2) {
      assert normal[i] in normal;
      var p :| p in Sorted(v.props) && normal[i].value == Signed(p.value);
      assert p in v.props;
    }
  }

  /** JSON data has nothing undefined to drop. */
  lemma {:induction false} JsonKept(v: JsValue, depth: nat)
    requires IsJsonValue(v, depth)
    ensures WithoutUndefined(v, depth) == v
    decreases v, 1, 0
  {
    match v
    case JArray(items) =>
      forall i | 0 <= i < |items| ensures WithoutUndefined(v, depth).items[i] == items[i] {
        if !items[i].JHole? { JsonKept(items[i], depth + 1); }
      }
      assert WithoutUndefined(v, depth).items == items;
    case JObject(props) =>
      PropsKept(v, |props|, depth);
      assert props[..|props|] == props;
    case _ =>
  }

  lemma {:induction false} PropsKept(v: JsValue, n: nat, depth: nat)
    requires v.JObject? && n <= |v.props| && IsJsonValue(v, depth)
    ensures DefinedProps(v, n, depth) == v.props[..n]
    decreases v, 0, n
  {
    if n > 0 {
      PropsKept(v, n - 1, depth);
      JsonKept(v.props[n - 1].value, depth + 1);
      assert v.props[..n] == v.props[..n - 1] + [v.props[n - 1]];
    }
  }

  /** Every valid set of parameters has an encoding: the canonical text of the parameters themselves. */
  lemma {:induction false} EncodesEvery(s: Schema, v: JsValue)
    requires s.ObjectSchema? && Proper(v) && Validate(s, v, 1).None?
    ensures CanonicalText(Normalized(v)).Some? && CanonicalText(Normalized(v)) == CanonicalText(v)
  {
    AcceptedIsJson(s, v, 1);
    JsonNormalized(v);
    JsonKept(v, 1);
    JsonKept(Normalized(v), 1);
    CanonicalIffJson(v, 1);
    CanonicalIffJson(Normalized(v), 1);
    NormalizedSame(v);
    NormalizedProper(v);
    SameTextIffSame(v, Normalized(v));
  }

  /** Two valid sets of parameters share an encoding exactly when they differ at most in key order and the sign of zero. */
  lemma {:induction false} EncodingIdentifies(s: Schema, v: JsValue, w: JsValue)
    requires s.ObjectSchema? && Proper(v) && Proper(w) && Validate(s, v, 1).None? && Validate(s, w, 1).None?
    ensures CanonicalText(Normalized(v)) == CanonicalText(Normalized(w)) <==> Same(v, w)
  {
    EncodesEvery(s, v);
    EncodesEvery(s, w);
    SameTextIffSame(v, w);
  }

  /** The normalized parameters are those given, with their keys in order, undefined ones gone, and -0 as 0. */
  lemma {:induction false} NormalizedIs(v: JsValue, key: JsString, value: JsValue)
    requires v.JObject? && DistinctKeys(v.props)
    ensures var props := Normalized(v).props;
            && (forall i, j :: 0 <= i < j < |props| ==> KeyLess(props[i].key, props[j].key))
            && (Prop(key, value) in props <==>
                exists p <- v.props :: p.key == key && !p.value.JUndefined? && value == if p.value == JNumber(NegativeZero) then JNumber(Finite(0.0)) else p.value)
  {
    SortedIs(v.props);
    NormalPropsAre(Sorted(v.props));
    if p :| p in v.props && p.key == key && !p.value.JUndefined? && value == Signed(p.value) { assert p in Sorted(v.props); }
    if Prop(key, value) in Normalized(v).props {
      var p :| p in Sorted(v.props) && key == p.key && !p.value.JUndefined? && value == Signed(p.value);
      assert p in v.props;
    }
  }
}
