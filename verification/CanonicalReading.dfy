/**
 * What the canonical text says: read as JSON it gives back the copy, and the copy says what the
 * value does, with its keys in order.
 */
module CanonicalReading {
  import opened Wrappers
  import opened JsValues
  import opened CanonicalJson

  // ----- reading JSON ---------------------------------------------------------------------

  /** The value at the front of the tokens, and what follows it. */
  function ReadValue(ts: seq<Token>): (r: Option<(Json, seq<Token>)>)
    ensures r.Some? ==> |r.value.1| < |ts|
    decreases |ts|, 0
  {
    if ts == [] then None
    else
      match ts[0]
      case TNull => Some((Null, ts[1..]))
      case TTrue => Some((Bool(true), ts[1..]))
      case TFalse => Some((Bool(false), ts[1..]))
      case TNumber(x) => Some((Number(x), ts[1..]))
      case TString(s) => Some((String(s), ts[1..]))
      case LBracket => AsArray(ReadItems(ts[1..], true))
      case LBrace => AsObject(ReadMembers(ts[1..], true))
      case _ => None
  }

  function AsArray(r: Option<(seq<Json>, seq<Token>)>): Option<(Json, seq<Token>)> {
    if r.None? then None else Some((Array(r.value.0), r.value.1))
  }

  function AsObject(r: Option<(seq<Member>, seq<Token>)>): Option<(Json, seq<Token>)> {
    if r.None? then None else Some((Object(r.value.0), r.value.1))
  }

  /** The tokens after a comma, or all of them where no comma is due. */
  function PastComma(ts: seq<Token>, first: bool): (r: Option<seq<Token>>)
    ensures r.Some? ==> |r.value| <= |ts|
  {
    if first then Some(ts) else if ts != [] && ts[0] == Comma then Some(ts[1..]) else None
  }

  function ReadItems(ts: seq<Token>, first: bool): (r: Option<(seq<Json>, seq<Token>)>)
    ensures r.Some? ==> |r.value.1| < |ts|
    decreases |ts|, 1
  {
    if ts == [] then None
    else if ts[0] == RBracket then Some(([], ts[1..]))
    else
      match PastComma(ts, first)
      case None => None
      case Some(us) =>
        match ReadValue(us)
        case None => None
        case Some((item, rest)) =>
          match ReadItems(rest, false)
          case None => None
          case Some((items, after)) => Some(([item] + items, after))
  }

  function ReadMembers(ts: seq<Token>, first: bool): (r: Option<(seq<Member>, seq<Token>)>)
    ensures r.Some? ==> |r.value.1| < |ts|
    decreases |ts|, 1
  {
    if ts == [] then None
    else if ts[0] == RBrace then Some(([], ts[1..]))
    else
      match PastComma(ts, first)
      case None => None
      case Some(us) =>
        if |us| < 2 || !us[0].TString? || us[1] != Colon then None
        else
          match ReadValue(us[2..])
          case None => None
          case Some((value, rest)) =>
            match ReadMembers(rest, false)
            case None => None
            case Some((members, after)) => Some(([Member(us[0].text, value)] + members, after))
  }

  // ----- the text reads back -----------------------------------------------------------------

  /** A text, whatever follows it, reads as the data it was written for. */
  lemma {:induction false} TextReads(j: Json, x: seq<Token>)
    ensures ReadValue(Text(j) + x) == Some((j, x))
    decreases j, 1, 0
  {
    var l := Text(j) + x;
    match j
    case Array(items) =>
      assert l[1..] == ItemsText(j, 0) + x;
      ItemsRead(j, 0, x);
      assert items[0..] == items;
    case Object(members) =>
      assert l[1..] == MembersText(j, 0) + x;
      MembersRead(j, 0, x);
      assert members[0..] == members;
    case _ => assert l[1..] == x;
  }

  lemma {:induction false} ItemsRead(j: Json, i: nat, x: seq<Token>)
    requires j.Array? && i <= |j.items|
    ensures ReadItems(ItemsText(j, i) + x, i == 0) == Some((j.items[i..], x))
    decreases j, 0, |j.items| - i
  {
    var l := ItemsText(j, i) + x;
    if i == |j.items| {
      assert l[1..] == x && j.items[i..] == [];
    } else {
      var rest := ItemsText(j, i + 1) + x;
      TextStarts(j.items[i]);
      Peeled(Separator(i), Text(j.items[i]), ItemsText(j, i + 1), x);
      assert l[0] != RBracket by { assert l[0] == if i > 0 then Comma else Text(j.items[i])[0]; }
      assert PastComma(l, i == 0) == Some(Text(j.items[i]) + rest);
      TextReads(j.items[i], rest);
      ItemsRead(j, i + 1, x);
      assert j.items[i..] == [j.items[i]] + j.items[i + 1..];
    }
  }

  lemma {:induction false} BehindComma(i: nat, us: seq<Token>)
    requires us != []
    ensures PastComma(Separator(i) + us, i == 0) == Some(us) && (Separator(i) + us)[0] == if i > 0 then Comma else us[0]
  {
    if i == 0 { assert [] + us == us; } else { assert ([Comma] + us)[1..] == us; }
  }

  lemma {:induction false} MemberText(j: Json, i: nat, x: seq<Token>)
    requires j.Object? && i < |j.members|
    ensures var m, rest := j.members[i], MembersText(j, i + 1) + x;
            var us := [TString(m.key), Colon] + (Text(m.value) + rest);
            MembersText(j, i) + x == Separator(i) + us && us[0] == TString(m.key) && us[1] == Colon && us[2..] == Text(m.value) + rest
  {
  }

  lemma {:induction false} MembersRead(j: Json, i: nat, x: seq<Token>)
    requires j.Object? && i <= |j.members|
    ensures ReadMembers(MembersText(j, i) + x, i == 0) == Some((j.members[i..], x))
    decreases j, 0, |j.members| - i
  {
    var l := MembersText(j, i) + x;
    if i == |j.members| {
      assert l[1..] == x && j.members[i..] == [];
    } else {
      var m, rest := j.members[i], MembersText(j, i + 1) + x;
      var us := [TString(m.key), Colon] + (Text(m.value) + rest);
      MemberText(j, i, x);
      BehindComma(i, us);
      TextReads(m.value, rest);
      MembersRead(j, i + 1, x);
      assert j.members[i..] == [m] + j.members[i + 1..];
    }
  }

  // ----- what the copy says ----------------------------------------------------------------------

  /** The copy says what the value does: -0 as 0, holes as null, no undefined property, and keys in order. */
  predicate Says(j: Json, v: JsValue)
    decreases j
  {
    match j
    case Null => v.JNull? || v.JHole?
    case Bool(b) => v == JBool(b)
    case Number(x) => v == JNumber(Finite(x)) || (v == JNumber(NegativeZero) && x == 0.0)
    case String(s) => v == JString(s)
    case Array(items) => v.JArray? && |v.items| == |items| && forall i :: 0 <= i < |items| ==> Says(items[i], v.items[i])
    case Object(members) =>
      && v.JObject?
      && (forall i, k :: 0 <= i < k < |members| ==> KeyLess(members[i].key, members[k].key))
      && (forall i :: 0 <= i < |members| ==> exists k :: 0 <= k < |v.props| && v.props[k].key == members[i].key && Says(members[i].value, v.props[k].value))
      && (forall k :: 0 <= k < |v.props| && !v.props[k].value.JUndefined? ==> exists i :: 0 <= i < |members| && members[i].key == v.props[k].key)
  }

  lemma {:induction false} CopySays(v: JsValue, depth: nat, maxDepth: nat)
    requires Proper(v) && Canonical(v, depth, maxDepth).Some?
    ensures Says(Canonical(v, depth, maxDepth).value, v)
    decreases v, 1
  {
    match v
    case JArray(items) =>
      ItemsAre(v, |items|, depth, maxDepth);
      var js := Canonical(v, depth, maxDepth).value.items;
      forall i | 0 <= i < |items| ensures Says(js[i], items[i]) {
        if !items[i].JHole? { CopySays(items[i], depth + 1, maxDepth); }
      }
    case JObject(_) => ObjectSays(v, depth, maxDepth);
    case _ =>
  }

  lemma {:induction false} MemberSays(v: JsValue, ms: seq<Member>, i: nat, depth: nat, maxDepth: nat)
    requires v.JObject? && Proper(v) && Canonical(v, depth, maxDepth) == Some(Object(ms)) && i < |ms|
    ensures exists k :: 0 <= k < |v.props| && v.props[k].key == ms[i].key && Says(ms[i].value, v.props[k].value)
    decreases v, 0, 0
  {
    var sorted := Sorted(v.props);
    SortedIs(v.props);
    MembersAre(v, sorted, |sorted|, depth, maxDepth);
    assert ms[i] in ms;
    var n :| 0 <= n < |sorted| && Becomes(sorted[n], ms[i], depth + 1, maxDepth);
    assert sorted[n] in v.props;
    var k :| 0 <= k < |v.props| && v.props[k] == sorted[n];
    CopySays(v.props[k].value, depth + 1, maxDepth);
  }

  lemma {:induction false} PropertySaid(v: JsValue, ms: seq<Member>, k: nat, depth: nat, maxDepth: nat)
    requires v.JObject? && Canonical(v, depth, maxDepth) == Some(Object(ms)) && k < |v.props| && !v.props[k].value.JUndefined?
    ensures exists i :: 0 <= i < |ms| && ms[i].key == v.props[k].key
  {
    var sorted := Sorted(v.props);
    SortedIs(v.props);
    MembersAre(v, sorted, |sorted|, depth, maxDepth);
    assert v.props[k] in sorted;
    var n :| 0 <= n < |sorted| && sorted[n] == v.props[k];
    var m :| m in ms && Becomes(sorted[n], m, depth + 1, maxDepth);
    var i :| 0 <= i < |ms| && ms[i] == m;
  }

  lemma {:induction false} ObjectSays(v: JsValue, depth: nat, maxDepth: nat)
    requires v.JObject? && Proper(v) && Canonical(v, depth, maxDepth).Some?
    ensures Says(Canonical(v, depth, maxDepth).value, v)
    decreases v, 0, 1
  {
    var ms := Canonical(v, depth, maxDepth).value.members;
    ObjectAscends(v, depth, maxDepth);
    forall i | 0 <= i < |ms|
      ensures exists k :: 0 <= k < |v.props| && v.props[k].key == ms[i].key && Says(ms[i].value, v.props[k].value) {
      MemberSays(v, ms, i, depth, maxDepth);
    }
    forall k | 0 <= k < |v.props| && !v.props[k].value.JUndefined? ensures exists i :: 0 <= i < |ms| && ms[i].key == v.props[k].key {
      PropertySaid(v, ms, k, depth, maxDepth);
    }
  }

  /** The canonical text of a value reads as JSON data that says what the value does. */
  lemma {:induction false} CanonicalTextReads(v: JsValue)
    requires Proper(v) && CanonicalText(v).Some?
    ensures var r := ReadValue(CanonicalText(v).value);
            r.Some? && r.value.1 == [] && Says(r.value.0, v)
  {
    var j := Canonical(v, 1, MAX_NESTING_DEPTH).value;
    CopySays(v, 1, MAX_NESTING_DEPTH);
    TextReads(j, []);
    assert Text(j) + [] == Text(j);
  }
}
