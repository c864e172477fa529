/**
 * Canonical JSON: what canonicalize accepts, and when two values get the same text.
 * The text is a sequence of tokens; number and string literals are tokens of their own.
 */
module CanonicalJson {
  import opened Wrappers
  import opened JsValues

  /** JSON data as canonicalize copies it: no undefined, no -0, members in their object's order. */
  datatype Json = Null | Bool(truth: bool) | Number(value: real) | String(text: JsString) | Array(items: seq<Json>) | Object(members: seq<Member>)
  datatype Member = Member(key: JsString, value: Json)

  // ----- the values canonicalize accepts -----------------------------------------------

  /** Objects without the properties whose value is undefined, down to the nesting limit. */
  function WithoutUndefined(v: JsValue, depth: nat): JsValue
    decreases v, 1, 0
  {
    if depth > MAX_NESTING_DEPTH then v
    else
      match v
      case JArray(items) => JArray(seq(|items|, i requires 0 <= i < |items| => if items[i].JHole? then JHole else WithoutUndefined(items[i], depth + 1)))
      case JObject(props) => JObject(DefinedProps(v, |props|, depth))
      case _ => v
  }

  function DefinedProps(v: JsValue, n: nat, depth: nat): seq<Prop>
    requires v.JObject? && n <= |v.props|
    decreases v, 0, n
  {
    if n == 0 then []
    else
      var p := v.props[n - 1];
      DefinedProps(v, n - 1, depth) + if p.value.JUndefined? then [] else [Prop(p.key, WithoutUndefined(p.value, depth + 1))]
  }

  // ----- sorting ---------------------------------------------------------------------------

  function Inserted(sorted: seq<Prop>, p: Prop): seq<Prop> {
    if sorted == [] then [p]
    else if KeyLess(p.key, sorted[0].key) then [p] + sorted
    else [sorted[0]] + Inserted(sorted[1..], p)
  }

  function Sorted(props: seq<Prop>): seq<Prop> {
    if props == [] then [] else Inserted(Sorted(props[1..]), props[0])
  }

  predicate Ascending(props: seq<Prop>) {
    forall i, j :: 0 <= i < j < |props| ==> KeyLess(props[i].key, props[j].key)
  }

  lemma {:induction false} InsertedIs(sorted: seq<Prop>, p: Prop)
    ensures forall q :: q in Inserted(sorted, p) <==> q == p || q in sorted
    ensures Ascending(sorted) && (forall q <- sorted :: q.key != p.key) ==> Ascending(Inserted(sorted, p))
  {
    if sorted != [] {
      assert sorted == [sorted[0]] + sorted[1..];
      KeyTotal(p.key, sorted[0].key);
      InsertedIs(sorted[1..], p);
      if Ascending(sorted) && forall q <- sorted :: q.key != p.key {
        if KeyLess(p.key, sorted[0].key) {
          forall j | 0 < j < |sorted| ensures KeyLess(p.key, sorted[j].key) { KeyTransitive(p.key, sorted[0].key, sorted[j].key); }
        } else {
          var rest := Inserted(sorted[1..], p);
          forall j | 0 <= j < |rest| ensures KeyLess(sorted[0].key, rest[j].key) { assert rest[j] in rest; }
        }
      }
    }
  }

  lemma {:induction false} SortedIs(props: seq<Prop>)
    ensures forall q :: q in Sorted(props) <==> q in props
    ensures DistinctKeys(props) ==> Ascending(Sorted(props))
  {
    if props != [] {
      SortedIs(props[1..]);
      InsertedIs(Sorted(props[1..]), props[0]);
      assert props == [props[0]] + props[1..];
    }
  }

  // ----- canonicalize -------------------------------------------------------------------------

  /** None stands for the TypeError. */
  function Canonical(v: JsValue, depth: nat, maxDepth: nat): Option<Json>
    decreases v, 1, 0
  {
    if depth > maxDepth then None
    else
      match v
      case JNull => Some(Null)
      case JBool(b) => Some(Bool(b))
      case JString(s) => Some(String(s))
      case JNumber(n) => if n.Finite? then Some(Number(n.value)) else if n.NegativeZero? then Some(Number(0.0)) else None
      case JArray(items) => (match CanonicalItems(v, |items|, depth, maxDepth) case None => None case Some(js) => Some(Array(js)))
      case JObject(props) =>
        SortedIs(props);
        var sorted := Sorted(props);
        (match CanonicalMembers(v, sorted, |sorted|, depth, maxDepth) case None => None case Some(ms) => Some(Object(ms)))
      case _ => None
  }

  /** A hole is skipped by map and printed as null. */
  function CanonicalItem(v: JsValue, depth: nat, maxDepth: nat): Option<Json>
    decreases v, 2, 0
  {
    if v.JHole? then Some(Null) else Canonical(v, depth, maxDepth)
  }

  function CanonicalItems(v: JsValue, n: nat, depth: nat, maxDepth: nat): Option<seq<Json>>
    requires v.JArray? && n <= |v.items|
    decreases v, 0, n
  {
    if n == 0 then Some([])
    else Appended(CanonicalItems(v, n - 1, depth, maxDepth), CanonicalItem(v.items[n - 1], depth + 1, maxDepth))
  }

  function Appended<T>(init: Option<seq<T>>, last: Option<T>): Option<seq<T>> {
    if init.None? || last.None? then None else Some(init.value + [last.value])
  }

  function CanonicalMembers(v: JsValue, sorted: seq<Prop>, n: nat, depth: nat, maxDepth: nat): Option<seq<Member>>
    requires v.JObject? && n <= |sorted| && forall p <- sorted :: p in v.props
    decreases v, 0, n
  {
    if n == 0 then Some([])
    else
      var p := sorted[n - 1];
      assert p in v.props;
      var init := CanonicalMembers(v, sorted, n - 1, depth, maxDepth);
      if p.value.JUndefined? then init else Appended(init, AsMember(p.key, Canonical(p.value, depth + 1, maxDepth)))
  }

  function AsMember(key: JsString, value: Option<Json>): Option<Member> {
    if value.None? then None else Some(Member(key, value.value))
  }

  method Canonicalize(v: JsValue, depth: nat, maxDepth: nat) returns (r: Option<Json>)
    ensures r == Canonical(v, depth, maxDepth)
    decreases v
  {
    if depth > maxDepth { return None; }
    match v {
      case JNull => return Some(Null);
      case JBool(b) => return Some(Bool(b));
      case JString(s) => return Some(String(s));
      case JNumber(n) =>
        if !n.Finite? && !n.NegativeZero? { return None; }
        return Some(Number(if n.NegativeZero? then 0.0 else n.value));
      case JArray(items) =>
        var copy: seq<Json> := [];
        for i := 0 to |items|
          invariant CanonicalItems(v, i, depth, maxDepth) == Some(copy)
        {
          var item := Some(Null);
          if !items[i].JHole? { item := Canonicalize(items[i], depth + 1, maxDepth); }
          if item.None? { ItemsStop(v, i + 1, depth, maxDepth); return None; }
          copy := copy + [item.value];
        }
        return Some(Array(copy));
      case JObject(props) =>
        SortedIs(props);
        var sorted := Sorted(props);
        var members: seq<Member> := [];
        for i := 0 to |sorted|
          invariant CanonicalMembers(v, sorted, i, depth, maxDepth) == Some(members)
        {
          var p := sorted[i];
          assert p in props;
          if p.value.JUndefined? { continue; }
          var value := Canonicalize(p.value, depth + 1, maxDepth);
          if value.None? { MembersStop(v, sorted, i + 1, depth, maxDepth); return None; }
          members := members + [Member(p.key, value.value)];
        }
        return Some(Object(members));
      case _ => return None;
    }
  }

  lemma {:induction false} ItemsStop(v: JsValue, n: nat, depth: nat, maxDepth: nat)
    requires v.JArray? && n <= |v.items| && CanonicalItems(v, n, depth, maxDepth).None?
    ensures CanonicalItems(v, |v.items|, depth, maxDepth).None?
    decreases |v.items| - n
  {
    if n < |v.items| { ItemsStop(v, n + 1, depth, maxDepth); }
  }

  lemma {:induction false} MembersStop(v: JsValue, sorted: seq<Prop>, n: nat, depth: nat, maxDepth: nat)
    requires v.JObject? && n <= |sorted| && (forall p <- sorted :: p in v.props) && CanonicalMembers(v, sorted, n, depth, maxDepth).None?
    ensures CanonicalMembers(v, sorted, |sorted|, depth, maxDepth).None?
    decreases |sorted| - n
  {
    if n < |sorted| { MembersStop(v, sorted, n + 1, depth, maxDepth); }
  }

  // ----- canonicalize succeeds exactly on JSON data ---------------------------------------------

  lemma {:induction false} ItemsAre(v: JsValue, n: nat, depth: nat, maxDepth: nat)
    requires v.JArray? && n <= |v.items|
    ensures CanonicalItems(v, n, depth, maxDepth).Some? <==> forall i :: 0 <= i < n ==> CanonicalItem(v.items[i], depth + 1, maxDepth).Some?
    ensures CanonicalItems(v, n, depth, maxDepth).Some? ==>
              var js := CanonicalItems(v, n, depth, maxDepth).value;
              |js| == n && forall i :: 0 <= i < n ==> CanonicalItem(v.items[i], depth + 1, maxDepth) == Some(js[i])
  {
    if n > 0 { ItemsAre(v, n - 1, depth, maxDepth); }
  }

  /** A defined property becomes a member: its key, and its value's copy. */
  predicate Becomes(p: Prop, m: Member, depth: nat, maxDepth: nat) {
    !p.value.JUndefined? && m.key == p.key && Canonical(p.value, depth, maxDepth) == Some(m.value)
  }

  lemma {:induction false} MembersAre(v: JsValue, sorted: seq<Prop>, n: nat, depth: nat, maxDepth: nat)
    requires v.JObject? && n <= |sorted| && forall p <- sorted :: p in v.props
    ensures CanonicalMembers(v, sorted, n, depth, maxDepth).Some? <==>
            forall i :: 0 <= i < n ==> sorted[i].value.JUndefined? || Canonical(sorted[i].value, depth + 1, maxDepth).Some?
    ensures CanonicalMembers(v, sorted, n, depth, maxDepth).Some? ==>
              var ms := CanonicalMembers(v, sorted, n, depth, maxDepth).value;
              && (forall m <- ms :: exists i :: 0 <= i < n && Becomes(sorted[i], m, depth + 1, maxDepth))
              && (forall i :: 0 <= i < n && !sorted[i].value.JUndefined? ==> exists m <- ms :: Becomes(sorted[i], m, depth + 1, maxDepth))
  {
    if n > 0 {
      MembersAre(v, sorted, n - 1, depth, maxDepth);
      var init, all := CanonicalMembers(v, sorted, n - 1, depth, maxDepth), CanonicalMembers(v, sorted, n, depth, maxDepth);
      if all.Some? && !sorted[n - 1].value.JUndefined? {
        assert Becomes(sorted[n - 1], all.value[|all.value| - 1], depth + 1, maxDepth);
        forall i | 0 <= i < n && !sorted[i].value.JUndefined? ensures exists m <- all.value :: Becomes(sorted[i], m, depth + 1, maxDepth) {
          if i < n - 1 {
            var m :| m in init.value && Becomes(sorted[i], m, depth + 1, maxDepth);
            assert m in all.value;
          } else {
            assert all.value[|all.value| - 1] in all.value;
          }
        }
      }
    }
  }

  predicate AllJson(props: seq<Prop>, depth: nat) {
    forall i :: 0 <= i < |props| ==> IsJsonValue(props[i].value, depth)
  }

  lemma {:induction false} AllJsonWith(props: seq<Prop>, p: Prop, depth: nat)
    ensures AllJson(props + [p], depth) <==> AllJson(props, depth) && IsJsonValue(p.value, depth)
  {
    assert forall i :: 0 <= i < |props| ==> (props + [p])[i] == props[i];
    assert (props + [p])[|props|] == p;
  }

  /** A property is dropped, or JSON data once its own undefined properties are. */
  predicate PropJson(p: Prop, depth: nat) {
    p.value.JUndefined? || IsJsonValue(WithoutUndefined(p.value, depth), depth)
  }

  lemma {:induction false} DefinedPropsAre(v: JsValue, n: nat, depth: nat)
    requires v.JObject? && n <= |v.props|
    ensures AllJson(DefinedProps(v, n, depth), depth + 1) <==> forall i :: 0 <= i < n ==> PropJson(v.props[i], depth + 1)
  {
    if n > 0 {
      DefinedPropsAre(v, n - 1, depth);
      var p := v.props[n - 1];
      if p.value.JUndefined? {
        assert DefinedProps(v, n, depth) == DefinedProps(v, n - 1, depth);
      } else {
        var q := Prop(p.key, WithoutUndefined(p.value, depth + 1));
        assert DefinedProps(v, n, depth) == DefinedProps(v, n - 1, depth) + [q];
        AllJsonWith(DefinedProps(v, n - 1, depth), q, depth + 1);
        assert PropJson(p, depth + 1) <==> IsJsonValue(q.value, depth + 1);
      }
    }
  }

  /** Canonicalizing succeeds exactly when the value is JSON data once its undefined properties are dropped. */
  lemma {:induction false} CanonicalIffJson(v: JsValue, depth: nat)
    ensures Canonical(v, depth, MAX_NESTING_DEPTH).Some? <==> IsJsonValue(WithoutUndefined(v, depth), depth)
    decreases v, 1
  {
    if depth <= MAX_NESTING_DEPTH {
      match v
      case JArray(items) =>
        ItemsAre(v, |items|, depth, MAX_NESTING_DEPTH);
        var copy := WithoutUndefined(v, depth).items;
        forall i | 0 <= i < |items|
          ensures CanonicalItem(items[i], depth + 1, MAX_NESTING_DEPTH).Some? <==> copy[i].JHole? || IsJsonValue(copy[i], depth + 1) {
          if !items[i].JHole? { CanonicalIffJson(items[i], depth + 1); }
        }
      case JObject(props) => ObjectIffJson(v, depth);
      case _ =>
    }
  }

  lemma {:induction false} ObjectIffJson(v: JsValue, depth: nat)
    requires v.JObject? && depth <= MAX_NESTING_DEPTH
    ensures Canonical(v, depth, MAX_NESTING_DEPTH).Some? <==> IsJsonValue(WithoutUndefined(v, depth), depth)
    decreases v, 0
  {
    var sorted, copy := Sorted(v.props), DefinedProps(v, |v.props|, depth);
    assert Canonical(v, depth, MAX_NESTING_DEPTH).Some? <==> forall i :: 0 <= i < |sorted| ==> PropCopied(sorted[i], depth + 1) by {
      SortedIs(v.props);
      MembersAre(v, sorted, |sorted|, depth, MAX_NESTING_DEPTH);
    }
    SortedCopied(v.props, depth + 1);
    forall i | 0 <= i < |v.props| ensures PropCopied(v.props[i], depth + 1) <==> PropJson(v.props[i], depth + 1) {
      CanonicalIffJson(v.props[i].value, depth + 1);
    }
    assert AllJson(copy, depth + 1) <==> forall i :: 0 <= i < |v.props| ==> PropJson(v.props[i], depth + 1) by {
      DefinedPropsAre(v, |v.props|, depth);
    }
    assert WithoutUndefined(v, depth) == JObject(copy) && (IsJsonValue(JObject(copy), depth) <==> AllJson(copy, depth + 1));
  }

  /** A property is skipped, or has a copy. */
  predicate PropCopied(p: Prop, depth: nat) {
    p.value.JUndefined? || Canonical(p.value, depth, MAX_NESTING_DEPTH).Some?
  }

  lemma {:induction false} SortedCopied(props: seq<Prop>, depth: nat)
    ensures (forall i :: 0 <= i < |Sorted(props)| ==> PropCopied(Sorted(props)[i], depth)) <==> (forall i :: 0 <= i < |props| ==> PropCopied(props[i], depth))
  {
    SortedIs(props);
    assert forall i :: 0 <= i < |Sorted(props)| ==> Sorted(props)[i] in props;
    assert forall i :: 0 <= i < |props| ==> props[i] in Sorted(props);
  }

  // ----- which values share a copy ----------------------------------------------------------------

  function Signless(n: Num): Num {
    if n.NegativeZero? then Finite(0.0) else n
  }

  predicate Nullish(v: JsValue) {
    v.JNull? || v.JHole?
  }

  predicate SameItem(v: JsValue, w: JsValue)
    decreases v, 1
  {
    (Nullish(v) && Nullish(w)) || (!v.JHole? && !w.JHole? && Same(v, w))
  }

  /** The values differ at most in the order of their keys, the sign of zero, undefined properties, and holes for nulls. */
  predicate Same(v: JsValue, w: JsValue)
    decreases v, 0
  {
    match v
    case JNumber(n) => w.JNumber? && Signless(n) == Signless(w.number)
    case JArray(items) => w.JArray? && |items| == |w.items| && forall i :: 0 <= i < |items| ==> SameItem(items[i], w.items[i])
    case JObject(props) =>
      && w.JObject?
      && (forall i :: 0 <= i < |props| && !props[i].value.JUndefined? ==>
            Defined(w.props, props[i].key) && Same(props[i].value, ValueAt(w.props, props[i].key)))
      && (forall k :: 0 <= k < |w.props| && !w.props[k].value.JUndefined? ==> Defined(props, w.props[k].key))
    case _ => v == w
  }

  predicate AscendingMembers(ms: seq<Member>) {
    forall i, j :: 0 <= i < j < |ms| ==> KeyLess(ms[i].key, ms[j].key)
  }

  lemma {:induction false} MembersAscend(v: JsValue, sorted: seq<Prop>, n: nat, depth: nat, maxDepth: nat)
    requires v.JObject? && n <= |sorted| && (forall p <- sorted :: p in v.props) && Ascending(sorted)
    requires CanonicalMembers(v, sorted, n, depth, maxDepth).Some?
    ensures var ms := CanonicalMembers(v, sorted, n, depth, maxDepth).value;
            AscendingMembers(ms) && forall m <- ms :: exists i :: 0 <= i < n && m.key == sorted[i].key
  {
    if n > 0 { MembersAscend(v, sorted, n - 1, depth, maxDepth); }
  }

  /** Members in ascending order are determined by which they are. */
  lemma {:induction false} AscendingAlike(ms: seq<Member>, ns: seq<Member>)
    requires AscendingMembers(ms) && AscendingMembers(ns)
    requires forall m :: m in ms <==> m in ns
    ensures ms == ns
  {
    assert ms != [] ==> ms[0] in ns;
    assert ns != [] ==> ns[0] in ms;
    if ms != [] && ns != [] {
      KeyTotal(ms[0].key, ns[0].key);
      assert ms[0] == ns[0];
      assert ms == [ms[0]] + ms[1..] && ns == [ns[0]] + ns[1..];
      forall m ensures m in ms[1..] <==> m in ns[1..] {
        KeyTotal(ms[0].key, ms[0].key);
        if m in ms[1..] { assert m in ns && m != ns[0]; }
        if m in ns[1..] { assert m in ms && m != ms[0]; }
      }
      AscendingAlike(ms[1..], ns[1..]);
    }
  }

  /** The object's copy of the member's value, if it defines that key. */
  predicate Copies(props: seq<Prop>, m: Member, depth: nat, maxDepth: nat) {
    Defined(props, m.key) && Canonical(ValueAt(props, m.key), depth, maxDepth) == Some(m.value)
  }

  /** An object's members are its defined properties, each copied. */
  lemma {:induction false} ObjectMembers(v: JsValue, depth: nat, maxDepth: nat, m: Member)
    requires v.JObject? && DistinctKeys(v.props) && Canonical(v, depth, maxDepth).Some?
    ensures m in Canonical(v, depth, maxDepth).value.members <==> Copies(v.props, m, depth + 1, maxDepth)
    ensures Defined(v.props, m.key) ==> Canonical(ValueAt(v.props, m.key), depth + 1, maxDepth).Some?
  {
    var sorted, ms := Sorted(v.props), Canonical(v, depth, maxDepth).value.members;
    SortedIs(v.props);
    MembersAre(v, sorted, |sorted|, depth, maxDepth);
    ValueAtIs(v.props, m.key);
    if m in ms {
      var i :| 0 <= i < |sorted| && Becomes(sorted[i], m, depth + 1, maxDepth);
      assert sorted[i] in v.props;
    }
    if Defined(v.props, m.key) {
      var p := Prop(m.key, ValueAt(v.props, m.key));
      assert p in sorted;
      var i :| 0 <= i < |sorted| && sorted[i] == p;
      var n :| n in ms && Becomes(sorted[i], n, depth + 1, maxDepth);
    }
  }

  lemma {:induction false} ObjectAscends(v: JsValue, depth: nat, maxDepth: nat)
    requires v.JObject? && DistinctKeys(v.props) && Canonical(v, depth, maxDepth).Some?
    ensures AscendingMembers(Canonical(v, depth, maxDepth).value.members)
  {
    var sorted := Sorted(v.props);
    SortedIs(v.props);
    MembersAscend(v, sorted, |sorted|, depth, maxDepth);
  }

  /** Two values get the same copy exactly when they differ only in what canonical JSON forgets. */
  lemma {:induction false} CanonicalIffSame(v: JsValue, w: JsValue, depth: nat, maxDepth: nat)
    requires Proper(v) && Proper(w) && Canonical(v, depth, maxDepth).Some? && Canonical(w, depth, maxDepth).Some?
    ensures Canonical(v, depth, maxDepth) == Canonical(w, depth, maxDepth) <==> Same(v, w)
    decreases v, 1
  {
    if v.JArray? && w.JArray? {
      ArraysIffSame(v, w, depth, maxDepth);
    } else if v.JObject? && w.JObject? {
      ObjectsIffSame(v, w, depth, maxDepth);
    } else {
      PlainIffSame(v, w, depth, maxDepth);
    }
  }

  /** Values that are not both arrays or both objects. */
  lemma {:induction false} PlainIffSame(v: JsValue, w: JsValue, depth: nat, maxDepth: nat)
    requires !(v.JArray? && w.JArray?) && !(v.JObject? && w.JObject?)
    requires Canonical(v, depth, maxDepth).Some? && Canonical(w, depth, maxDepth).Some?
    ensures Canonical(v, depth, maxDepth) == Canonical(w, depth, maxDepth) <==> Same(v, w)
  {
  }

  lemma {:induction false} ArraysIffSame(v: JsValue, w: JsValue, depth: nat, maxDepth: nat)
    requires v.JArray? && w.JArray? && Proper(v) && Proper(w) && Canonical(v, depth, maxDepth).Some? && Canonical(w, depth, maxDepth).Some?
    ensures Canonical(v, depth, maxDepth) == Canonical(w, depth, maxDepth) <==> Same(v, w)
    decreases v, 0
  {
    var items, others := v.items, w.items;
    ItemsAre(v, |items|, depth, maxDepth);
    ItemsAre(w, |others|, depth, maxDepth);
    var js, ks := Canonical(v, depth, maxDepth).value.items, Canonical(w, depth, maxDepth).value.items;
    if |items| == |others| {
      forall i | 0 <= i < |items| ensures js[i] == ks[i] <==> SameItem(items[i], others[i]) {
        if !items[i].JHole? && !others[i].JHole? { CanonicalIffSame(items[i], others[i], depth + 1, maxDepth); }
      }
      assert js == ks <==> forall i :: 0 <= i < |items| ==> SameItem(items[i], others[i]);
    }
  }

  lemma {:induction false} ObjectsIffSame(v: JsValue, w: JsValue, depth: nat, maxDepth: nat)
    requires v.JObject? && w.JObject? && Proper(v) && Proper(w) && Canonical(v, depth, maxDepth).Some? && Canonical(w, depth, maxDepth).Some?
    ensures Canonical(v, depth, maxDepth) == Canonical(w, depth, maxDepth) <==> Same(v, w)
    decreases v, 0
  {
    var ms, ns := Canonical(v, depth, maxDepth).value.members, Canonical(w, depth, maxDepth).value.members;
    forall i | 0 <= i < |v.props| && !v.props[i].value.JUndefined? && Defined(w.props, v.props[i].key)
      ensures CopiedAlike(v.props[i], w.props, depth + 1, maxDepth) <==> Same(v.props[i].value, ValueAt(w.props, v.props[i].key)) {
      var p, x := v.props[i], ValueAt(w.props, v.props[i].key);
      ValueAtIs(v.props, p.key);
      ValueAtIs(w.props, p.key);
      ObjectMembers(v, depth, maxDepth, Member(p.key, Null));
      ObjectMembers(w, depth, maxDepth, Member(p.key, Null));
      var k :| 0 <= k < |w.props| && w.props[k] == Prop(p.key, x);
      CanonicalIffSame(p.value, x, depth + 1, maxDepth);
    }
    if ms == ns { EqualMembersAlike(v, w, depth, maxDepth); }
    if Same(v, w) {
      forall i | 0 <= i < |v.props| && !v.props[i].value.JUndefined? ensures CopiedAlike(v.props[i], w.props, depth + 1, maxDepth) {}
      AlikeEqualMembers(v, w, depth, maxDepth);
    }
  }

  /** The property's copy is the copy of what the other object has under its key. */
  predicate CopiedAlike(p: Prop, others: seq<Prop>, depth: nat, maxDepth: nat) {
    Defined(others, p.key) && Canonical(p.value, depth, maxDepth) == Canonical(ValueAt(others, p.key), depth, maxDepth)
  }

  predicate AllAlike(v: JsValue, w: JsValue, depth: nat, maxDepth: nat)
    requires v.JObject? && w.JObject?
  {
    && (forall i :: 0 <= i < |v.props| && !v.props[i].value.JUndefined? ==> CopiedAlike(v.props[i], w.props, depth, maxDepth))
    && (forall k :: 0 <= k < |w.props| && !w.props[k].value.JUndefined? ==> Defined(v.props, w.props[k].key))
  }

  lemma {:induction false} EqualMembersAlike(v: JsValue, w: JsValue, depth: nat, maxDepth: nat)
    requires v.JObject? && w.JObject? && DistinctKeys(v.props) && DistinctKeys(w.props)
    requires Canonical(v, depth, maxDepth).Some? && Canonical(w, depth, maxDepth) == Canonical(v, depth, maxDepth)
    ensures AllAlike(v, w, depth + 1, maxDepth)
  {
    forall i | 0 <= i < |v.props| && !v.props[i].value.JUndefined? ensures CopiedAlike(v.props[i], w.props, depth + 1, maxDepth) {
      ReadAlike(v, w, depth, maxDepth, v.props[i]);
    }
    forall k | 0 <= k < |w.props| && !w.props[k].value.JUndefined? ensures Defined(v.props, w.props[k].key) {
      ReadAlike(w, v, depth, maxDepth, w.props[k]);
    }
  }

  lemma {:induction false} ReadAlike(v: JsValue, w: JsValue, depth: nat, maxDepth: nat, p: Prop)
    requires v.JObject? && w.JObject? && DistinctKeys(v.props) && DistinctKeys(w.props)
    requires Canonical(v, depth, maxDepth).Some? && Canonical(w, depth, maxDepth) == Canonical(v, depth, maxDepth)
    requires p in v.props && !p.value.JUndefined?
    ensures CopiedAlike(p, w.props, depth + 1, maxDepth)
  {
    ValueAtIs(v.props, p.key);
    ObjectMembers(v, depth, maxDepth, Member(p.key, Null));
    var m := Member(p.key, Canonical(p.value, depth + 1, maxDepth).value);
    ObjectMembers(v, depth, maxDepth, m);
    ObjectMembers(w, depth, maxDepth, m);
  }

  lemma {:induction false} AlikeEqualMembers(v: JsValue, w: JsValue, depth: nat, maxDepth: nat)
    requires v.JObject? && w.JObject? && DistinctKeys(v.props) && DistinctKeys(w.props)
    requires Canonical(v, depth, maxDepth).Some? && Canonical(w, depth, maxDepth).Some? && AllAlike(v, w, depth + 1, maxDepth)
    ensures Canonical(v, depth, maxDepth) == Canonical(w, depth, maxDepth)
  {
    var ms, ns := Canonical(v, depth, maxDepth).value.members, Canonical(w, depth, maxDepth).value.members;
    forall m ensures m in ms <==> m in ns {
      ObjectMembers(v, depth, maxDepth, m);
      ObjectMembers(w, depth, maxDepth, m);
      ValueAtIs(v.props, m.key);
      ValueAtIs(w.props, m.key);
    }
    ObjectAscends(v, depth, maxDepth);
    ObjectAscends(w, depth, maxDepth);
    AscendingAlike(ms, ns);
  }

  // ----- the text -------------------------------------------------------------------------------------

  datatype Token = TNull | TTrue | TFalse | TNumber(value: real) | TString(text: JsString) | LBracket | RBracket | LBrace | RBrace | Comma | Colon

  function Text(j: Json): seq<Token>
    decreases j, 1, 0
  {
    match j
    case Null => [TNull]
    case Bool(b) => [if b then TTrue else TFalse]
    case Number(n) => [TNumber(n)]
    case String(s) => [TString(s)]
    case Array(items) => [LBracket] + ItemsText(j, 0)
    case Object(members) => [LBrace] + MembersText(j, 0)
  }

  function Separator(i: nat): seq<Token> {
    if i > 0 then [Comma] else []
  }

  /** The items from the i-th on, and the closing bracket. */
  function ItemsText(j: Json, i: nat): seq<Token>
    requires j.Array? && i <= |j.items|
    decreases j, 0, |j.items| - i
  {
    if i == |j.items| then [RBracket]
    else Separator(i) + (Text(j.items[i]) + ItemsText(j, i + 1))
  }

  function MembersText(j: Json, i: nat): seq<Token>
    requires j.Object? && i <= |j.members|
    decreases j, 0, |j.members| - i
  {
    if i == |j.members| then [RBrace]
    else Separator(i) + ([TString(j.members[i].key), Colon] + (Text(j.members[i].value) + MembersText(j, i + 1)))
  }

  /** No text starts with what closes or separates. */
  lemma {:induction false} TextStarts(j: Json)
    ensures Text(j) != [] && Text(j)[0] !in {RBracket, RBrace, Comma, Colon}
  {
  }

  lemma {:induction false} Peeled(s: seq<Token>, t: seq<Token>, u: seq<Token>, x: seq<Token>)
    ensures (s + (t + u) + x)[|s|..] == t + (u + x)
  {
  }

  lemma {:induction false} PeeledMember(s: seq<Token>, key: JsString, t: seq<Token>, u: seq<Token>, x: seq<Token>)
    ensures var l := s + ([TString(key), Colon] + (t + u)) + x; |l| > |s| && l[|s|] == TString(key) && l[|s| + 2..] == t + (u + x)
  {
  }

  /** A text says where it ends: no value's text is the start of another's. */
  lemma {:induction false} TextSplits(j: Json, x: seq<Token>, k: Json, y: seq<Token>)
    requires Text(j) + x == Text(k) + y
    ensures j == k && x == y
    decreases j, 1, 0
  {
    TextStarts(j);
    TextStarts(k);
    var l, r := Text(j) + x, Text(k) + y;
    assert l[0] == Text(j)[0] && r[0] == Text(k)[0];
    match j
    case Array(items) =>
      assert l[1..] == ItemsText(j, 0) + x && r[1..] == ItemsText(k, 0) + y;
      ItemsSplit(j, 0, x, k, y);
    case Object(members) =>
      assert l[1..] == MembersText(j, 0) + x && r[1..] == MembersText(k, 0) + y;
      MembersSplit(j, 0, x, k, y);
    case _ =>
      assert l[1..] == x && r[1..] == y;
  }

  lemma {:induction false} ItemsSplit(j: Json, i: nat, x: seq<Token>, k: Json, y: seq<Token>)
    requires j.Array? && k.Array? && i <= |j.items| && i <= |k.items| && j.items[..i] == k.items[..i]
    requires ItemsText(j, i) + x == ItemsText(k, i) + y
    ensures j == k && x == y
    decreases j, 0, |j.items| - i
  {
    var l, r := ItemsText(j, i) + x, ItemsText(k, i) + y;
    if i < |j.items| { TextStarts(j.items[i]); }
    if i < |k.items| { TextStarts(k.items[i]); }
    assert i == |j.items| <==> i == |k.items| by { assert l[0] == ItemsText(j, i)[0] && r[0] == ItemsText(k, i)[0]; }
    if i == |j.items| {
      assert l[1..] == x && r[1..] == y;
    } else {
      var n := |Separator(i)|;
      Peeled(Separator(i), Text(j.items[i]), ItemsText(j, i + 1), x);
      Peeled(Separator(i), Text(k.items[i]), ItemsText(k, i + 1), y);
      assert l[n..] == r[n..];
      TextSplits(j.items[i], ItemsText(j, i + 1) + x, k.items[i], ItemsText(k, i + 1) + y);
      ItemsSplit(j, i + 1, x, k, y);
    }
  }

  lemma {:induction false} MembersSplit(j: Json, i: nat, x: seq<Token>, k: Json, y: seq<Token>)
    requires j.Object? && k.Object? && i <= |j.members| && i <= |k.members| && j.members[..i] == k.members[..i]
    requires MembersText(j, i) + x == MembersText(k, i) + y
    ensures j == k && x == y
    decreases j, 0, |j.members| - i
  {
    var l, r := MembersText(j, i) + x, MembersText(k, i) + y;
    assert i == |j.members| <==> i == |k.members| by { assert l[0] == MembersText(j, i)[0] && r[0] == MembersText(k, i)[0]; }
    if i == |j.members| {
      assert l[1..] == x && r[1..] == y;
    } else {
      var n, m, o := |Separator(i)|, j.members[i], k.members[i];
      PeeledMember(Separator(i), m.key, Text(m.value), MembersText(j, i + 1), x);
      PeeledMember(Separator(i), o.key, Text(o.value), MembersText(k, i + 1), y);
      assert l[n] == r[n] && l[n + 2..] == r[n + 2..];
      TextSplits(m.value, MembersText(j, i + 1) + x, o.value, MembersText(k, i + 1) + y);
      MembersSplit(j, i + 1, x, k, y);
    }
  }

  /** canonicalJson at the default depth: the text, or None for the TypeError. */
  function CanonicalText(v: JsValue): Option<seq<Token>> {
    match Canonical(v, 1, MAX_NESTING_DEPTH)
    case None => None
    case Some(j) => Some(Text(j))
  }

  /** Two values get the same text exactly when they differ only in what canonical JSON forgets. */
  lemma {:induction false} SameTextIffSame(v: JsValue, w: JsValue)
    requires Proper(v) && Proper(w) && CanonicalText(v).Some? && CanonicalText(w).Some?
    ensures CanonicalText(v) == CanonicalText(w) <==> Same(v, w)
  {
    var j, k := Canonical(v, 1, MAX_NESTING_DEPTH).value, Canonical(w, 1, MAX_NESTING_DEPTH).value;
    CanonicalIffSame(v, w, 1, MAX_NESTING_DEPTH);
    if Text(j) == Text(k) { TextSplits(j, [], k, []); }
  }

  /** A hole prints as null, so an array with one shares its text with an array that differs from it. */
  lemma {:induction false} HolePrintsAsNull()
    ensures JArray([JHole]) != JArray([JNull]) && CanonicalText(JArray([JHole])).Some?
    ensures CanonicalText(JArray([JHole])) == CanonicalText(JArray([JNull]))
  {
    SameTextIffSame(JArray([JHole]), JArray([JNull]));
    ItemsAre(JArray([JHole]), 1, 1, MAX_NESTING_DEPTH);
    ItemsAre(JArray([JNull]), 1, 1, MAX_NESTING_DEPTH);
  }
}
