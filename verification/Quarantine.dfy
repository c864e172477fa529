/**
 * Record headers on their way through the quarantine topic. A header object maps
 * each name to one value or, when the name repeats, to the list of its values;
 * its properties keep the order they were added in.
 */
module Quarantine {
  import opened Wrappers
  import opened ByteStrings
  import opened HeaderCodec
  import opened Evidence

  /** A value of a header object: bytes, text in UTF-8, or what a name shared with Object.prototype inherits. */
  datatype Item = Buffer(bytes: Bytes) | Text(utf8: Bytes) | Inherited

  datatype Raw = Undefined | One(item: Item) | Many(items: seq<Item>)

  datatype Property = Property(name: Bytes, raw: Raw)

  type HeaderObject = seq<Property>

  // ----- flattening -----------------------------------------------------------------

  function ItemsOf(raw: Raw): seq<Item> {
    match raw
    case Undefined => []
    case One(item) => [item]
    case Many(items) => items
  }

  function ItemHeaders(name: Bytes, items: seq<Item>): seq<Header> {
    if items == [] then []
    else
      ItemHeaders(name, items[..|items| - 1]) +
      match items[|items| - 1]
      case Buffer(bytes) => [Header(name, bytes)]
      case Text(utf8) => [Header(name, utf8)]
      case Inherited => []
  }

  /** One entry per value; what did not come from the wire is skipped. */
  function Flattened(o: HeaderObject): seq<Header> {
    if o == [] then [] else Flattened(o[..|o| - 1]) + ItemHeaders(o[|o| - 1].name, ItemsOf(o[|o| - 1].raw))
  }

  method FlattenKafkaHeaders(headers: Option<HeaderObject>) returns (list: seq<Header>)
    ensures list == if headers.None? then [] else Flattened(headers.value)
  {
    list := [];
    if headers.None? { return; }
    var o := headers.value;
    for i := 0 to |o|
      invariant list == Flattened(o[..i])
    {
      var found := FlattenItems(o[i].name, ItemsOf(o[i].raw));
      list := list + found;
      assert o[..i + 1][..i] == o[..i];
    }
    assert o[..|o|] == o;
  }

  /** The entries of one property. */
  method FlattenItems(name: Bytes, items: seq<Item>) returns (list: seq<Header>)
    ensures list == ItemHeaders(name, items)
  {
    list := [];
    for j := 0 to |items|
      invariant list == ItemHeaders(name, items[..j])
    {
      assert items[..j + 1][..j] == items[..j];
      match items[j] {
        case Buffer(bytes) => list := list + [Header(name, bytes)];
        case Text(utf8) => list := list + [Header(name, utf8)];
        case Inherited =>
      }
    }
    assert items[..|items|] == items;
  }

  // ----- building an object ------------------------------------------------------------

  /** Where the object has the property, or its length when it has not. */
  function IndexOf(o: HeaderObject, name: Bytes): (i: nat)
    ensures i <= |o| && (i < |o| ==> o[i].name == name)
  {
    if o == [] then 0
    else
      var i := IndexOf(o[..|o| - 1], name);
      if i < |o| - 1 then i else if o[|o| - 1].name == name then |o| - 1 else |o|
  }

  function RawAt(o: HeaderObject, name: Bytes): Raw {
    var i := IndexOf(o, name);
    if i < |o| then o[i].raw else Undefined
  }

  /** Assigning a property: in place when the object has it, at the end otherwise. */
  function Assigned(o: HeaderObject, name: Bytes, raw: Raw): HeaderObject {
    var i := IndexOf(o, name);
    if i < |o| then o[i := Property(name, raw)] else o + [Property(name, raw)]
  }

  /** A first value stays alone; a name seen before keeps every value, in order. */
  function Extended(existing: Raw, value: Bytes): Raw {
    match existing
    case Undefined => One(Buffer(value))
    case One(item) => Many([item, Buffer(value)])
    case Many(items) => Many(items + [Buffer(value)])
  }

  function Added(o: HeaderObject, h: Header): HeaderObject {
    Assigned(o, h.name, Extended(RawAt(o, h.name), h.value))
  }

  /** The object a list of headers is folded into, by the writer and again by the reader. */
  function Gathered(list: seq<Header>): HeaderObject {
    if list == [] then [] else Added(Gathered(list[..|list| - 1]), list[|list| - 1])
  }

  // ----- the quarantine record ------------------------------------------------------------

  const PREFIX := Ascii("src.")
  const ENVELOPE := Ascii("streamotter-envelope")
  const FAILURE_ID := Ascii("streamotter-failure-id")
  const MAX_ENVELOPE_HEADER_BYTES := 16384

  datatype Write = Write(failureId: Bytes, envelope: Bytes, evidence: RawEvidence)

  function PrefixedAll(headers: seq<Header>): seq<Header> {
    if headers == [] then []
    else
      var last := headers[|headers| - 1];
      PrefixedAll(headers[..|headers| - 1]) + [Header(PREFIX + last.name, last.value)]
  }

  /** The headers a write puts on its record. */
  function WrittenHeaders(w: Write): seq<Header> {
    [Header(ENVELOPE, w.envelope), Header(FAILURE_ID, w.failureId)] + PrefixedAll(w.evidence.headers)
  }

  lemma {:induction false} GatheredNext(own: seq<Header>, headers: seq<Header>, i: nat)
    requires i < |headers|
    ensures Gathered(own + PrefixedAll(headers[..i + 1])) == Added(Gathered(own + PrefixedAll(headers[..i])), Header(PREFIX + headers[i].name, headers[i].value))
  {
    assert headers[..i + 1] == headers[..i] + [headers[i]];
    PrefixedNext(own, headers[..i], headers[i]);
    var list := own + PrefixedAll(headers[..i + 1]);
    assert list[..|list| - 1] == own + PrefixedAll(headers[..i]);
  }

  /** The header object publish hands to the producer, or None when the envelope is too large. */
  method Publish(w: Write) returns (headers: Option<HeaderObject>)
    ensures headers == if |w.envelope| > MAX_ENVELOPE_HEADER_BYTES then None else Some(Gathered(WrittenHeaders(w)))
  {
    if |w.envelope| > MAX_ENVELOPE_HEADER_BYTES { return None; }
    var o := [Property(ENVELOPE, One(Buffer(w.envelope))), Property(FAILURE_ID, One(Buffer(w.failureId)))];
    ghost var own := [Header(ENVELOPE, w.envelope), Header(FAILURE_ID, w.failureId)];
    OwnHeaders(w);
    assert own + PrefixedAll([]) == own;
    for i := 0 to |w.evidence.headers|
      invariant o == Gathered(own + PrefixedAll(w.evidence.headers[..i]))
    {
      var h := w.evidence.headers[i];
      var name := PREFIX + h.name;
      var existing := RawAt(o, name);
      var value := Buffer(h.value);
      var raw := if existing.Undefined? then One(value) else if existing.Many? then Many(existing.items + [value]) else Many([existing.item, value]);
      o := Assigned(o, name, raw);
      GatheredNext(own, w.evidence.headers, i);
    }
    assert w.evidence.headers[..|w.evidence.headers|] == w.evidence.headers;
    headers := Some(o);
  }

  lemma {:induction false} OwnHeaders(w: Write)
    ensures Gathered([Header(ENVELOPE, w.envelope), Header(FAILURE_ID, w.failureId)]) ==
            [Property(ENVELOPE, One(Buffer(w.envelope))), Property(FAILURE_ID, One(Buffer(w.failureId)))]
  {
    var list := [Header(ENVELOPE, w.envelope), Header(FAILURE_ID, w.failureId)];
    assert list[..1] == [list[0]] && list[..1][..0] == [];
    assert Gathered(list[..1]) == [Property(ENVELOPE, One(Buffer(w.envelope)))];
    assert |ENVELOPE| != |FAILURE_ID|;
  }

  predicate StartsWith(name: Bytes, prefix: Bytes) {
    prefix <= name
  }

  /** The list's src. headers, in order, with the prefix removed. */
  function SourceOf(list: seq<Header>): seq<Header> {
    if list == [] then []
    else
      var last := list[|list| - 1];
      SourceOf(list[..|list| - 1]) + if StartsWith(last.name, PREFIX) then [Header(last.name[|PREFIX|..], last.value)] else []
  }

  function SourceHeadersFromQuarantine(o: HeaderObject): seq<Header> {
    SourceOf(Flattened(o))
  }

  /** A record read back: the reader folds the wire's headers into an object again. */
  datatype Record = Record(key: Option<Bytes>, value: Option<Bytes>, headers: HeaderObject)

  /** The wire carries one header per value, in the object's order. */
  function ReadBack(w: Write): Record {
    Record(w.evidence.key, w.evidence.value, Gathered(Flattened(Gathered(WrittenHeaders(w)))))
  }

  datatype Mismatch = NoFailureId | ManyFailureIds | OtherFailure | OtherEvidence

  function ItemBytes(item: Item): Option<Bytes> {
    match item
    case Buffer(bytes) => Some(bytes)
    case Text(utf8) => Some(utf8)
    case Inherited => None
  }

  /** expected is what the incident's evidence hash was taken over. */
  function Verified(r: Record, failureId: Bytes, expected: Bytes): Result<RawEvidence, Mismatch> {
    match RawAt(r.headers, FAILURE_ID)
    case Undefined => Err(NoFailureId)
    case Many(_) => Err(ManyFailureIds)
    case One(id) =>
      if ItemBytes(id) != Some(failureId) then Err(OtherFailure)
      else
        var evidence := RawEvidence(r.key, r.value, SourceHeadersFromQuarantine(r.headers));
        if Feed(evidence) != expected then Err(OtherEvidence) else Ok(evidence)
  }

  // ----- objects and lists -------------------------------------------------------------------

  /** Headers of one name stand together. */
  predicate Grouped(list: seq<Header>) {
    forall i, j, k :: 0 <= i < j < k < |list| && list[i].name == list[k].name ==> list[j].name == list[i].name
  }

  predicate DistinctNames(o: HeaderObject) {
    forall i, j :: 0 <= i < j < |o| ==> o[i].name != o[j].name
  }

  predicate Wire(items: seq<Item>) {
    items != [] && forall x <- items :: x.Buffer?
  }

  /** An object folded from the wire: every property has values, and all of them bytes. */
  predicate Plain(o: HeaderObject) {
    DistinctNames(o) && forall p <- o :: Wire(ItemsOf(p.raw))
  }

  predicate Names(list: seq<Header>, name: Bytes) {
    exists h <- list :: h.name == name
  }

  predicate Has(o: HeaderObject, name: Bytes) {
    exists p <- o :: p.name == name
  }

  lemma {:induction false} IndexOfIs(o: HeaderObject, name: Bytes)
    ensures IndexOf(o, name) < |o| <==> Has(o, name)
  {
    if o != [] {
      var init := o[..|o| - 1];
      IndexOfIs(init, name);
      assert o == init + [o[|o| - 1]];
    }
  }

  lemma {:induction false} AddedKeeps(o: HeaderObject, h: Header)
    requires Plain(o)
    ensures Plain(Added(o, h))
    ensures forall n: Bytes :: Has(Added(o, h), n) <==> Has(o, n) || n == h.name
  {
    IndexOfIs(o, h.name);
    var i, u := IndexOf(o, h.name), Added(o, h);
    forall n: Bytes ensures Has(u, n) <==> Has(o, n) || n == h.name {
      if Has(o, n) {
        var k :| 0 <= k < |o| && o[k].name == n;
        assert u[k].name == n;
      }
      if n == h.name {
        assert u[i].name == n;
      }
    }
  }

  lemma {:induction false} GatheredIs(list: seq<Header>)
    ensures Plain(Gathered(list))
    ensures forall n: Bytes :: Has(Gathered(list), n) <==> Names(list, n)
  {
    if list != [] {
      var init, h := list[..|list| - 1], list[|list| - 1];
      GatheredIs(init);
      AddedKeeps(Gathered(init), h);
      assert list == init + [h];
    }
  }

  lemma {:induction false} ItemHeadersNamed(name: Bytes, items: seq<Item>)
    ensures forall h <- ItemHeaders(name, items) :: h.name == name
    ensures Wire(items) ==> ItemHeaders(name, items) != []
  {
    if items != [] { ItemHeadersNamed(name, items[..|items| - 1]); }
  }

  lemma {:induction false} FlattenedGrouped(o: HeaderObject)
    requires DistinctNames(o)
    ensures Grouped(Flattened(o))
    ensures forall h <- Flattened(o) :: Has(o, h.name)
  {
    if o != [] {
      var init, p := o[..|o| - 1], o[|o| - 1];
      FlattenedGrouped(init);
      ItemHeadersNamed(p.name, ItemsOf(p.raw));
      assert o == init + [p];
      assert !Has(init, p.name);
    }
  }

  lemma {:induction false} FlattenedWith(o: HeaderObject, p: Property)
    ensures Flattened(o + [p]) == Flattened(o) + ItemHeaders(p.name, ItemsOf(p.raw))
  {
    assert (o + [p])[..|o|] == o;
  }

  lemma {:induction false} ItemsWith(name: Bytes, raw: Raw, value: Bytes)
    ensures ItemHeaders(name, ItemsOf(Extended(raw, value))) == ItemHeaders(name, ItemsOf(raw)) + [Header(name, value)]
  {
    var items := ItemsOf(Extended(raw, value));
    assert items[..|items| - 1] == ItemsOf(raw);
    assert items[|items| - 1] == Buffer(value);
  }

  lemma {:induction false} Rejoined(a: seq<Header>, b: seq<Header>, c: seq<Header>)
    ensures a + (b + c) == a + b + c
  {
  }

  lemma {:induction false} LastExtended(o: HeaderObject, name: Bytes, raw: Raw, value: Bytes)
    ensures Flattened(o + [Property(name, Extended(raw, value))]) == Flattened(o) + ItemHeaders(name, ItemsOf(raw)) + [Header(name, value)]
  {
    var p := Property(name, Extended(raw, value));
    var before, items, h := Flattened(o), ItemHeaders(name, ItemsOf(raw)), [Header(name, value)];
    assert ItemHeaders(name, ItemsOf(p.raw)) == items + h by { ItemsWith(name, raw, value); }
    assert Flattened(o + [p]) == before + (items + h) by { FlattenedWith(o, p); }
    Rejoined(before, items, h);
  }

  /** What one more value of the last property, or of a new one, adds. */
  lemma {:induction false} AddedLast(o: HeaderObject, h: Header)
    requires IndexOf(o, h.name) >= |o| - 1
    ensures Flattened(Added(o, h)) == Flattened(o) + [h]
  {
    var raw := RawAt(o, h.name);
    if IndexOf(o, h.name) == |o| {
      LastExtended(o, h.name, raw, h.value);
      assert ItemHeaders(h.name, ItemsOf(raw)) == [];
    } else {
      assert Added(o, h) == o[..|o| - 1] + [Property(h.name, Extended(raw, h.value))];
      LastExtended(o[..|o| - 1], h.name, raw, h.value);
    }
  }

  /** Folding a list into an object and flattening it gives a grouped list back as it was. */
  lemma {:induction false} GroupedReturns(list: seq<Header>)
    requires Grouped(list)
    ensures Flattened(Gathered(list)) == list
  {
    if list != [] {
      var init, h := list[..|list| - 1], list[|list| - 1];
      var o := Gathered(init);
      assert list == init + [h];
      GroupedReturns(init);
      GatheredIs(init);
      if Has(o, h.name) {
        var k :| 0 <= k < |init| && init[k].name == h.name;
        assert init[|init| - 1].name == h.name;
        ItemHeadersNamed(o[|o| - 1].name, ItemsOf(o[|o| - 1].raw));
        assert o[|o| - 1].name == h.name;
      }
      IndexOfIs(o, h.name);
      AddedLast(o, h);
    }
  }

  // ----- the round trip ----------------------------------------------------------------------

  /** A source header in the list stands there under its prefixed name; the last one, if prefixed, is the last. */
  lemma {:induction false} SourceNames(list: seq<Header>)
    ensures forall h <- SourceOf(list) :: Names(list, PREFIX + h.name)
    ensures list != [] && StartsWith(list[|list| - 1].name, PREFIX) ==>
              SourceOf(list) != [] && PREFIX + SourceOf(list)[|SourceOf(list)| - 1].name == list[|list| - 1].name
  {
    if list != [] {
      var init, last := list[..|list| - 1], list[|list| - 1];
      SourceNames(init);
      assert forall h <- init :: h in list;
      assert last in list;
      if StartsWith(last.name, PREFIX) { assert last.name == PREFIX + last.name[|PREFIX|..]; }
    }
  }

  lemma {:induction false} SourceGrouped(list: seq<Header>)
    requires Grouped(list)
    ensures Grouped(SourceOf(list))
  {
    if list != [] {
      var init, last := list[..|list| - 1], list[|list| - 1];
      assert Grouped(init) by { assert forall i :: 0 <= i < |init| ==> init[i] == list[i]; }
      SourceGrouped(init);
      if StartsWith(last.name, PREFIX) {
        var src, name := SourceOf(init), last.name[|PREFIX|..];
        forall i | 0 <= i < |src| && src[i].name == name ensures src[|src| - 1].name == name { SourceLast(list, src[i]); }
        GroupedWith(src, Header(name, last.value));
      }
    }
  }

  /** In a grouped list a source header that shares the last one's name makes the one before it share it too. */
  lemma {:induction false} SourceLast(list: seq<Header>, h: Header)
    requires Grouped(list) && list != [] && StartsWith(list[|list| - 1].name, PREFIX)
    requires h in SourceOf(list[..|list| - 1]) && PREFIX + h.name == list[|list| - 1].name
    ensures var src := SourceOf(list[..|list| - 1]); src[|src| - 1].name == h.name
  {
    var init := list[..|list| - 1];
    SourceNames(init);
    var k :| 0 <= k < |init| && init[k].name == PREFIX + h.name;
    assert list[k] == init[k] && init[|init| - 1] == list[|init| - 1];
    assert init[|init| - 1].name == PREFIX + h.name;
    var src := SourceOf(init);
    SamePrefixed(src[|src| - 1].name, h.name);
  }

  lemma {:induction false} GroupedWith(list: seq<Header>, h: Header)
    requires Grouped(list) && forall i :: 0 <= i < |list| && list[i].name == h.name ==> list[|list| - 1].name == h.name
    ensures Grouped(list + [h])
  {
  }

  lemma {:induction false} SamePrefixed(a: Bytes, b: Bytes)
    ensures PREFIX + a == PREFIX + b ==> a == b
  {
    assert (PREFIX + a)[|PREFIX|..] == a && (PREFIX + b)[|PREFIX|..] == b;
  }

  lemma {:induction false} PrefixedIs(headers: seq<Header>)
    ensures |PrefixedAll(headers)| == |headers|
    ensures forall i :: 0 <= i < |headers| ==> PrefixedAll(headers)[i] == Header(PREFIX + headers[i].name, headers[i].value)
  {
    if headers != [] { PrefixedIs(headers[..|headers| - 1]); }
  }

  lemma {:induction false} SourceOfPrefixed(own: seq<Header>, headers: seq<Header>)
    requires forall h <- own :: !StartsWith(h.name, PREFIX)
    ensures SourceOf(own + PrefixedAll(headers)) == headers
  {
    if headers == [] {
      assert own + PrefixedAll([]) == own;
      SourceOfOwn(own);
    } else {
      var before, last := headers[..|headers| - 1], headers[|headers| - 1];
      SourceOfPrefixed(own, before);
      PrefixedNext(own, before, last);
      SourceOfNext(own + PrefixedAll(before), PREFIX, last);
      assert before + [last] == headers;
    }
  }

  lemma {:induction false} PrefixedNext(own: seq<Header>, headers: seq<Header>, h: Header)
    ensures own + PrefixedAll(headers + [h]) == own + PrefixedAll(headers) + [Header(PREFIX + h.name, h.value)]
  {
    assert (headers + [h])[..|headers|] == headers;
  }

  lemma {:induction false} SourceOfOwn(own: seq<Header>)
    requires forall h <- own :: !StartsWith(h.name, PREFIX)
    ensures SourceOf(own) == []
  {
    if own != [] { SourceOfOwn(own[..|own| - 1]); }
  }

  lemma {:induction false} SourceOfNext(list: seq<Header>, prefix: Bytes, h: Header)
    requires prefix == PREFIX
    ensures SourceOf(list + [Header(prefix + h.name, h.value)]) == SourceOf(list) + [h]
  {
    assert StartsWith(prefix + h.name, prefix) && (prefix + h.name)[|prefix|..] == h.name;
    assert (list + [Header(prefix + h.name, h.value)])[..|list|] == list;
  }

  lemma {:induction false} OwnNames(w: Write)
    ensures var own := [Header(ENVELOPE, w.envelope), Header(FAILURE_ID, w.failureId)];
            WrittenHeaders(w) == own + PrefixedAll(w.evidence.headers) && ENVELOPE != FAILURE_ID && forall h <- own :: !StartsWith(h.name, PREFIX)
  {
    assert ENVELOPE[1] != PREFIX[1] && FAILURE_ID[1] != PREFIX[1];
    assert |ENVELOPE| != |FAILURE_ID|;
  }

  lemma {:induction false} WrittenGrouped(w: Write)
    requires Grouped(w.evidence.headers)
    ensures Grouped(WrittenHeaders(w))
  {
    OwnNames(w);
    PrefixedIs(w.evidence.headers);
    var list, headers := WrittenHeaders(w), w.evidence.headers;
    assert forall i :: 2 <= i < |list| ==> list[i].name == PREFIX + headers[i - 2].name && StartsWith(list[i].name, PREFIX);
    forall i, j, k | 0 <= i < j < k < |list| && list[i].name == list[k].name ensures list[j].name == list[i].name {
      if i >= 2 {
        assert (PREFIX + headers[i - 2].name)[|PREFIX|..] == headers[i - 2].name;
        assert (PREFIX + headers[k - 2].name)[|PREFIX|..] == headers[k - 2].name;
      }
    }
  }

  /** The headers read back from the topic are those captured, exactly when equal names were captured together. */
  lemma {:induction false} HeadersReturn(w: Write)
    ensures SourceHeadersFromQuarantine(ReadBack(w).headers) == w.evidence.headers <==> Grouped(w.evidence.headers)
  {
    var list := WrittenHeaders(w);
    var wire := Flattened(Gathered(list));
    GatheredIs(list);
    FlattenedGrouped(Gathered(list));
    GroupedReturns(wire);
    SourceGrouped(wire);
    if Grouped(w.evidence.headers) {
      WrittenGrouped(w);
      GroupedReturns(list);
      OwnNames(w);
      SourceOfPrefixed([Header(ENVELOPE, w.envelope), Header(FAILURE_ID, w.failureId)], w.evidence.headers);
    }
  }

  /** Whatever object Kafka delivers, its list is captured with equal names together. */
  lemma {:induction false} CapturedGrouped(o: HeaderObject)
    requires DistinctNames(o)
    ensures Grouped(Flattened(o))
  {
    FlattenedGrouped(o);
  }

  // ----- the failure ID header ------------------------------------------------------------------

  /** The values a list carries under one name, in order. */
  function ValuesOf(list: seq<Header>, name: Bytes): seq<Item> {
    if list == [] then []
    else
      var last := list[|list| - 1];
      ValuesOf(list[..|list| - 1], name) + if last.name == name then [Buffer(last.value)] else []
  }

  function RawOf(items: seq<Item>): Raw {
    if items == [] then Undefined else if |items| == 1 then One(items[0]) else Many(items)
  }

  lemma {:induction false} IndexAfter(o: HeaderObject, p: Property, name: Bytes)
    requires DistinctNames(o)
    ensures IndexOf(o + [p], name) == if IndexOf(o, name) < |o| then IndexOf(o, name) else if p.name == name then |o| else |o| + 1
  {
    assert (o + [p])[..|o|] == o;
  }

  lemma {:induction false} IndexKept(o: HeaderObject, i: nat, p: Property, name: Bytes)
    requires i < |o| && o[i].name == p.name
    ensures IndexOf(o[i := p], name) == IndexOf(o, name)
  {
    var init := o[..|o| - 1];
    if i < |o| - 1 {
      assert o[i := p][..|o| - 1] == init[i := p];
      IndexKept(init, i, p, name);
    } else {
      assert o[i := p][..|o| - 1] == init;
    }
  }

  lemma {:induction false} RawAfter(o: HeaderObject, name: Bytes, raw: Raw, other: Bytes)
    requires DistinctNames(o)
    ensures RawAt(Assigned(o, name, raw), other) == if other == name then raw else RawAt(o, other)
  {
    var i, p := IndexOf(o, name), Property(name, raw);
    if i < |o| {
      IndexKept(o, i, p, other);
    } else {
      IndexAfter(o, p, other);
    }
  }

  lemma {:induction false} GatheredRaw(list: seq<Header>, name: Bytes)
    ensures RawAt(Gathered(list), name) == RawOf(ValuesOf(list, name))
  {
    if list != [] {
      var init, h := list[..|list| - 1], list[|list| - 1];
      GatheredIs(init);
      GatheredRaw(init, name);
      RawAfter(Gathered(init), h.name, Extended(RawAt(Gathered(init), h.name), h.value), name);
    }
  }

  lemma {:induction false} PrefixedValues(own: seq<Header>, headers: seq<Header>, name: Bytes)
    requires !StartsWith(name, PREFIX)
    ensures ValuesOf(own + PrefixedAll(headers), name) == ValuesOf(own, name)
  {
    if headers == [] {
      assert own + PrefixedAll([]) == own;
    } else {
      var list, last := own + PrefixedAll(headers), headers[|headers| - 1];
      assert list[..|list| - 1] == own + PrefixedAll(headers[..|headers| - 1]);
      assert StartsWith(PREFIX + last.name, PREFIX);
      PrefixedValues(own, headers[..|headers| - 1], name);
    }
  }

  lemma {:induction false} FailureIdWritten(w: Write)
    ensures ValuesOf(WrittenHeaders(w), FAILURE_ID) == [Buffer(w.failureId)]
  {
    var own := [Header(ENVELOPE, w.envelope), Header(FAILURE_ID, w.failureId)];
    OwnNames(w);
    PrefixedValues(own, w.evidence.headers, FAILURE_ID);
    assert own[1] in own && !StartsWith(FAILURE_ID, PREFIX);
    assert own[..1] == [own[0]] && own[..1][..0] == [];
    assert ValuesOf([own[0]], FAILURE_ID) == [];
  }

  lemma {:induction false} FailureIdReadBack(w: Write)
    requires Grouped(w.evidence.headers)
    ensures RawAt(ReadBack(w).headers, FAILURE_ID) == One(Buffer(w.failureId))
  {
    WrittenGrouped(w);
    GroupedReturns(WrittenHeaders(w));
    GatheredRaw(WrittenHeaders(w), FAILURE_ID);
    FailureIdWritten(w);
  }

  /** The record a write leaves verifies for its own failure ID and evidence, and for no others. */
  lemma {:induction false} VerifiesItsOwn(w: Write, failureId: Bytes, e: RawEvidence)
    requires Grouped(w.evidence.headers) && Measurable(w.evidence) && Measurable(e)
    ensures Verified(ReadBack(w), failureId, Feed(e)) ==
            if failureId != w.failureId then Err(OtherFailure) else if e != w.evidence then Err(OtherEvidence) else Ok(e)
  {
    FailureIdReadBack(w);
    HeadersReturn(w);
    FeedInjective(w.evidence, e);
  }

  /** Whatever header object Kafka delivered, the list captured from it comes back unchanged and the record verifies. */
  lemma {:induction false} CapturedVerifies(o: HeaderObject, w: Write)
    requires DistinctNames(o) && w.evidence.headers == Flattened(o) && Measurable(w.evidence)
    ensures SourceHeadersFromQuarantine(ReadBack(w).headers) == Flattened(o)
    ensures Verified(ReadBack(w), w.failureId, Feed(w.evidence)) == Ok(w.evidence)
  {
    CapturedGrouped(o);
    HeadersReturn(w);
    VerifiesItsOwn(w, w.failureId, w.evidence);
  }
}
