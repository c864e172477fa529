/** JavaScript values, as far as the contracts package looks into them. */
module JsValues {
  type CodeUnit = x: int | 0 <= x < 0x10000
  /** A string is its UTF-16 code units. */
  type JsString = seq<CodeUnit>

  datatype Num = NaN | Infinite(negative: bool) | NegativeZero | Finite(value: real)

  /**
   * JHole is an array element that was never assigned: reading it gives undefined,
   * but every and map skip it. JOther is whatever is not JSON data: a function,
   * a symbol, an instance of a class.
   */
  datatype JsValue =
    | JNull | JBool(truth: bool) | JNumber(number: Num) | JString(text: JsString)
    | JArray(items: seq<JsValue>) | JObject(props: seq<Prop>)
    | JUndefined | JHole | JOther

  datatype Prop = Prop(key: JsString, value: JsValue)

  predicate DistinctKeys(props: seq<Prop>) {
    forall i, j :: 0 <= i < j < |props| ==> props[i].key != props[j].key
  }

  /** No object has two properties of one name. */
  predicate Proper(v: JsValue) {
    match v
    case JArray(items) => forall i :: 0 <= i < |items| ==> Proper(items[i])
    case JObject(props) => DistinctKeys(props) && forall i :: 0 <= i < |props| ==> Proper(props[i].value)
    case _ => true
  }

  function Units(text: string): JsString {
    seq(|text|, i requires 0 <= i < |text| => text[i] as int % 0x10000)
  }

  const MAX_NESTING_DEPTH := 16

  /** Plain JSON data within the nesting limit. */
  predicate IsJsonValue(v: JsValue, depth: nat) {
    depth <= MAX_NESTING_DEPTH &&
    match v
    case JNull => true
    case JBool(_) => true
    case JString(_) => true
    case JNumber(n) => n.Finite? || n.NegativeZero?
    case JArray(items) => forall i :: 0 <= i < |items| ==> items[i].JHole? || IsJsonValue(items[i], depth + 1)
    case JObject(props) => forall i :: 0 <= i < |props| ==> IsJsonValue(props[i].value, depth + 1)
    case _ => false
  }

  /** Reading a property: undefined when the object has none of that name. */
  function ValueAt(props: seq<Prop>, key: JsString): JsValue {
    if props == [] then JUndefined else if props[0].key == key then props[0].value else ValueAt(props[1..], key)
  }

  predicate Defined(props: seq<Prop>, key: JsString) {
    !ValueAt(props, key).JUndefined?
  }

  lemma {:induction false} ValueAtIs(props: seq<Prop>, key: JsString)
    requires DistinctKeys(props)
    ensures forall i :: 0 <= i < |props| && props[i].key == key ==> ValueAt(props, key) == props[i].value
    ensures Defined(props, key) ==> Prop(key, ValueAt(props, key)) in props
  {
    if props != [] && props[0].key != key { ValueAtIs(props[1..], key); }
  }

  // ----- the order of an object's keys ----------------------------------------------

  predicate LexLess(a: JsString, b: JsString) {
    b != [] && (a == [] || a[0] < b[0] || (a[0] == b[0] && LexLess(a[1..], b[1..])))
  }

  predicate Digits(s: JsString) {
    forall u <- s :: 48 <= u <= 57
  }

  /** A key that is an array index comes before every other key, and in numeric order. */
  predicate IsIndex(s: JsString) {
    Digits(s) && (s == [48] || (s != [] && s[0] != 48 && (|s| < 10 || (|s| == 10 && LexLess(s, Units("4294967295"))))))
  }

  /** Whether a sorted object lists key a before key b. */
  predicate KeyLess(a: JsString, b: JsString) {
    if IsIndex(a) != IsIndex(b) then IsIndex(a)
    else if IsIndex(a) && |a| != |b| then |a| < |b|
    else LexLess(a, b)
  }

  lemma {:induction false} LexTotal(a: JsString, b: JsString)
    ensures a == b || LexLess(a, b) || LexLess(b, a)
    ensures !(LexLess(a, b) && LexLess(b, a)) && !LexLess(a, a)
  {
    if a != [] { LexTotal(a[1..], a[1..]); }
    if a != [] && b != [] {
      LexTotal(a[1..], b[1..]);
      assert a == [a[0]] + a[1..] && b == [b[0]] + b[1..];
    }
  }

  lemma {:induction false} LexTransitive(a: JsString, b: JsString, c: JsString)
    requires LexLess(a, b) && LexLess(b, c)
    ensures LexLess(a, c)
  {
    if a != [] && a[0] == b[0] == c[0] { LexTransitive(a[1..], b[1..], c[1..]); }
  }

  lemma {:induction false} KeyTotal(a: JsString, b: JsString)
    ensures a == b || KeyLess(a, b) || KeyLess(b, a)
    ensures !(KeyLess(a, b) && KeyLess(b, a)) && !KeyLess(a, a)
  {
    LexTotal(a, b);
    LexTotal(a, a);
  }

  lemma {:induction false} KeyTransitive(a: JsString, b: JsString, c: JsString)
    requires KeyLess(a, b) && KeyLess(b, c)
    ensures KeyLess(a, c)
  {
    if LexLess(a, b) && LexLess(b, c) { LexTransitive(a, b, c); }
  }
}
