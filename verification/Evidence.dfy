/**
 * The bytes an evidence hash is taken over. The hash itself is left out: what is
 * proved is that different evidence never feeds it the same bytes.
 */
module Evidence {
  import opened Wrappers
  import opened ByteStrings
  import opened HeaderCodec

  datatype RawEvidence = RawEvidence(key: Option<Bytes>, value: Option<Bytes>, headers: seq<Header>)

  /** A hash object, as the bytes fed to it so far. */
  class Hash {
    var fed: Bytes

    constructor ()
      ensures fed == []
    {
      fed := [];
    }

    method Update(bytes: Bytes)
      modifies this
      ensures fed == old(fed) + bytes
    {
      fed := fed + bytes;
    }
  }

  /** A presence byte, the length in eight bytes, then the bytes. */
  function Field(bytes: Option<Bytes>): Bytes {
    match bytes
    case None => [0] + BigEndian(0, 8)
    case Some(b) => [1] + BigEndian(|b|, 8) + b
  }

  function FieldBytes(fields: seq<Option<Bytes>>): Bytes {
    if fields == [] then [] else Field(fields[0]) + FieldBytes(fields[1..])
  }

  /** A number's decimal digits. */
  function Decimal(n: nat): Bytes {
    if n < 10 then [48 + n] else Decimal(n / 10) + [48 + n % 10]
  }

  function HeaderFields(headers: seq<Header>): seq<Option<Bytes>> {
    if headers == [] then []
    else HeaderFields(headers[..|headers| - 1]) + [Some(headers[|headers| - 1].name), Some(headers[|headers| - 1].value)]
  }

  /** Key, value, the number of headers, then each header's name and value. */
  function Fields(e: RawEvidence): seq<Option<Bytes>> {
    [e.key, e.value, Some(Decimal(|e.headers|))] + HeaderFields(e.headers)
  }

  function Feed(e: RawEvidence): Bytes {
    Ascii("streamotter-evidence-v1") + FieldBytes(Fields(e))
  }

  method LengthPrefixed(hash: Hash, bytes: Option<Bytes>)
    modifies hash
    ensures hash.fed == old(hash.fed) + Field(bytes)
  {
    if bytes.None? {
      hash.Update([0] + BigEndian(0, 8));
      return;
    }
    hash.Update([1] + BigEndian(|bytes.value|, 8));
    hash.Update(bytes.value);
  }

  lemma {:induction false} FieldAppended(fields: seq<Option<Bytes>>, f: Option<Bytes>)
    ensures FieldBytes(fields + [f]) == FieldBytes(fields) + Field(f)
  {
    if fields == [] {
      assert [] + [f] == [f];
    } else {
      FieldAppended(fields[1..], f);
      assert (fields + [f])[1..] == fields[1..] + [f];
      Associative(Field(fields[0]), FieldBytes(fields[1..]), Field(f));
    }
  }

  /** One more field fed to the hash. */
  method FeedField(hash: Hash, ghost tag: Bytes, ghost fields: seq<Option<Bytes>>, f: Option<Bytes>)
    requires hash.fed == tag + FieldBytes(fields)
    modifies hash
    ensures hash.fed == tag + FieldBytes(fields + [f])
  {
    LengthPrefixed(hash, f);
    FieldAppended(fields, f);
    Associative(tag, FieldBytes(fields), Field(f));
  }

  method EvidenceHash(e: RawEvidence) returns (hash: Hash)
    ensures fresh(hash) && hash.fed == Feed(e)
  {
    hash := new Hash();
    var tag := Ascii("streamotter-evidence-v1");
    hash.Update(tag);
    assert [] + tag == tag + FieldBytes([]);
    var count: Option<Bytes> := Some(Decimal(|e.headers|));
    FeedField(hash, tag, [], e.key);
    FeedField(hash, tag, [] + [e.key], e.value);
    FeedField(hash, tag, [] + [e.key] + [e.value], count);
    ghost var start := [e.key, e.value, count];
    assert [] + [e.key] + [e.value] + [count] == start + HeaderFields([]);
    for i := 0 to |e.headers|
      invariant hash.fed == tag + FieldBytes(start + HeaderFields(e.headers[..i]))
    {
      ghost var fields := start + HeaderFields(e.headers[..i]);
      var h := e.headers[i];
      FeedField(hash, tag, fields, Some(h.name));
      FeedField(hash, tag, fields + [Some(h.name)], Some(h.value));
      assert e.headers[..i + 1][..i] == e.headers[..i];
      assert fields + [Some(h.name)] + [Some(h.value)] == start + HeaderFields(e.headers[..i + 1]);
    }
    assert e.headers[..|e.headers|] == e.headers;
  }

  // ----- different evidence, different bytes --------------------------------------------

  const U64 := Pow256(8)

  predicate FieldFits(bytes: Option<Bytes>) {
    bytes.Some? ==> |bytes.value| < U64
  }

  /** Every length fits the eight bytes it is written in. */
  predicate Measurable(e: RawEvidence) {
    && FieldFits(e.key) && FieldFits(e.value) && FieldFits(Some(Decimal(|e.headers|)))
    && forall h <- e.headers :: FieldFits(Some(h.name)) && FieldFits(Some(h.value))
  }

  /** A field says where it ends: no field is the start of another. */
  lemma {:induction false} FieldsSplit(a: Option<Bytes>, x: Bytes, b: Option<Bytes>, y: Bytes)
    requires FieldFits(a) && FieldFits(b) && Field(a) + x == Field(b) + y
    ensures a == b && x == y
  {
    var l, r := Field(a) + x, Field(b) + y;
    assert l[0] == Field(a)[0] && r[0] == Field(b)[0];
    if a.Some? {
      assert l[1..9] == BigEndian(|a.value|, 8) && r[1..9] == BigEndian(|b.value|, 8);
      ValueOfBigEndian(|a.value|, 8);
      ValueOfBigEndian(|b.value|, 8);
      assert l[9..9 + |a.value|] == a.value && r[9..9 + |a.value|] == b.value;
    }
    assert l[|Field(a)|..] == x && r[|Field(a)|..] == y;
  }

  predicate AllFit(fields: seq<Option<Bytes>>) {
    forall f <- fields :: FieldFits(f)
  }

  lemma {:induction false} NothingFed(fields: seq<Option<Bytes>>)
    ensures FieldBytes(fields) == [] ==> fields == []
  {
    assert fields != [] ==> |Field(fields[0])| >= 9;
  }

  lemma {:induction false} FieldBytesInjective(a: seq<Option<Bytes>>, b: seq<Option<Bytes>>)
    requires AllFit(a) && AllFit(b) && FieldBytes(a) == FieldBytes(b)
    ensures a == b
  {
    if a == [] || b == [] {
      NothingFed(a);
      NothingFed(b);
    } else {
      var s, t := a[1..], b[1..];
      assert a[0] == b[0] && FieldBytes(s) == FieldBytes(t) by { FieldsSplit(a[0], FieldBytes(s), b[0], FieldBytes(t)); }
      assert AllFit(s) && AllFit(t);
      FieldBytesInjective(s, t);
      assert a == [a[0]] + s && b == [b[0]] + t;
    }
  }

  lemma {:induction false} HeaderFieldsInjective(a: seq<Header>, b: seq<Header>)
    requires HeaderFields(a) == HeaderFields(b)
    ensures a == b
  {
    if a != [] && b != [] {
      var s, t := a[..|a| - 1], b[..|b| - 1];
      var f, g := HeaderFields(a), HeaderFields(b);
      assert f[..|f| - 2] == HeaderFields(s) && g[..|g| - 2] == HeaderFields(t);
      assert f[|f| - 2] == Some(a[|a| - 1].name) && f[|f| - 1] == Some(a[|a| - 1].value);
      HeaderFieldsInjective(s, t);
      assert a == s + [a[|a| - 1]] && b == t + [b[|b| - 1]];
    }
  }

  lemma {:induction false} HeaderFieldsFit(headers: seq<Header>)
    requires forall h <- headers :: FieldFits(Some(h.name)) && FieldFits(Some(h.value))
    ensures AllFit(HeaderFields(headers))
  {
    if headers != [] { HeaderFieldsFit(headers[..|headers| - 1]); }
  }

  /** Null and empty, and every key, value, name, value and order of headers, are told apart. */
  lemma {:induction false} FeedInjective(d: RawEvidence, e: RawEvidence)
    requires Measurable(d) && Measurable(e)
    ensures Feed(d) == Feed(e) <==> d == e
  {
    if Feed(d) == Feed(e) {
      var tag := Ascii("streamotter-evidence-v1");
      assert FieldBytes(Fields(d)) == Feed(d)[|tag|..] && FieldBytes(Fields(e)) == Feed(e)[|tag|..];
      HeaderFieldsFit(d.headers);
      HeaderFieldsFit(e.headers);
      var f, g := Fields(d), Fields(e);
      FieldBytesInjective(f, g);
      assert f[0] == d.key && f[1] == d.value && g[0] == e.key && g[1] == e.value;
      assert f[3..] == HeaderFields(d.headers) && g[3..] == HeaderFields(e.headers);
      HeaderFieldsInjective(d.headers, e.headers);
    }
  }
}
