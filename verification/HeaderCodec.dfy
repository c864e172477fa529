/**
 * The journal's header list encoding: a version byte, a count, then for each
 * header its name and its value, each behind a 32-bit length. Names are byte strings.
 */
module HeaderCodec {
  import opened Wrappers
  import opened ByteStrings

  datatype Header = Header(name: Bytes, value: Bytes)

  const U32: nat := 0x1_0000_0000

  predicate Fits(headers: seq<Header>) {
    |headers| < U32 && forall h <- headers :: |h.name| < U32 && |h.value| < U32
  }

  function Prefixed(b: Bytes): Bytes {
    BigEndian(|b|, 4) + b
  }

  function EncodedOne(h: Header): Bytes {
    Prefixed(h.name) + Prefixed(h.value)
  }

  function EncodedAll(headers: seq<Header>): Bytes {
    if headers == [] then [] else EncodedOne(headers[0]) + EncodedAll(headers[1..])
  }

  function Encoded(headers: seq<Header>): Bytes {
    [1] + BigEndian(|headers|, 4) + EncodedAll(headers)
  }

  // ----- writing ------------------------------------------------------------------------

  method WriteU32(buffer: array<byte>, value: nat, offset: nat) returns (next: nat)
    requires offset + 4 <= buffer.Length
    modifies buffer
    ensures next == offset + 4
    ensures buffer[..next] == old(buffer[..offset]) + BigEndian(value, 4)
  {
    buffer[offset] := value / 0x100_0000 % 0x100;
    buffer[offset + 1] := value / 0x1_0000 % 0x100;
    buffer[offset + 2] := value / 0x100 % 0x100;
    buffer[offset + 3] := value % 0x100;
    next := offset + 4;
    FourBytes(value);
    assert buffer[..next] == buffer[..offset] + [buffer[offset], buffer[offset + 1], buffer[offset + 2], buffer[offset + 3]];
  }

  lemma {:induction false} FourBytes(value: nat)
    ensures BigEndian(value, 4) == [value / 0x100_0000 % 0x100, value / 0x1_0000 % 0x100, value / 0x100 % 0x100, value % 0x100]
  {
    assert BigEndian(value / 0x100_0000, 1) == [value / 0x100_0000 % 0x100];
    assert value / 0x1_0000 / 0x100 == value / 0x100_0000;
    assert BigEndian(value / 0x1_0000, 2) == BigEndian(value / 0x100_0000, 1) + [value / 0x1_0000 % 0x100];
    assert value / 0x100 / 0x100 == value / 0x1_0000;
    assert BigEndian(value / 0x100, 3) == BigEndian(value / 0x1_0000, 2) + [value / 0x100 % 0x100];
  }

  method Copy(buffer: array<byte>, source: Bytes, offset: nat) returns (next: nat)
    requires offset + |source| <= buffer.Length
    modifies buffer
    ensures next == offset + |source|
    ensures buffer[..next] == old(buffer[..offset]) + source
  {
    for i := 0 to |source|
      invariant buffer[..offset + i] == old(buffer[..offset]) + source[..i]
    {
      buffer[offset + i] := source[i];
      assert buffer[..offset + i + 1] == buffer[..offset + i] + [source[i]];
    }
    next := offset + |source|;
  }

  method Size(headers: seq<Header>) returns (size: nat)
    ensures size == |Encoded(headers)|
  {
    size := 5;
    for i := 0 to |headers|
      invariant size + |EncodedAll(headers[i..])| == |Encoded(headers)|
    {
      size := size + 8 + |headers[i].name| + |headers[i].value|;
    }
  }

  lemma {:induction false} Associative(a: Bytes, b: Bytes, c: Bytes)
    ensures a + b + c == a + (b + c)
  {
  }

  method WriteHeader(buffer: array<byte>, h: Header, offset: nat) returns (next: nat)
    requires offset + |EncodedOne(h)| <= buffer.Length
    modifies buffer
    ensures next == offset + |EncodedOne(h)|
    ensures buffer[..next] == old(buffer[..offset]) + EncodedOne(h)
  {
    next := WriteU32(buffer, |h.name|, offset);
    next := Copy(buffer, h.name, next);
    next := WriteU32(buffer, |h.value|, next);
    next := Copy(buffer, h.value, next);
    assert buffer[..next] == old(buffer[..offset]) + BigEndian(|h.name|, 4) + h.name + BigEndian(|h.value|, 4) + h.value;
  }

  /** The buffer is refused a length that does not fit its four bytes. */
  method EncodeHeaders(headers: seq<Header>) returns (r: Option<array<byte>>)
    ensures r.Some? <==> Fits(headers)
    ensures r.Some? ==> r.value[..] == Encoded(headers)
  {
    var size := Size(headers);
    var buffer := new byte[size](i => 0);
    if |headers| >= U32 { return None; }
    buffer[0] := 1;
    var offset: nat := WriteU32(buffer, |headers|, 1);
    for i := 0 to |headers|
      invariant Fits(headers[..i])
      invariant offset + |EncodedAll(headers[i..])| == size
      invariant offset <= buffer.Length && buffer[..offset] + EncodedAll(headers[i..]) == Encoded(headers)
    {
      var h := headers[i];
      if |h.name| >= U32 || |h.value| >= U32 {
        assert h in headers;
        return None;
      }
      ghost var done, rest := buffer[..offset], EncodedAll(headers[i + 1..]);
      assert headers[i..][0] == h && headers[i..][1..] == headers[i + 1..];
      offset := WriteHeader(buffer, h, offset);
      Associative(done, EncodedOne(h), rest);
    }
    assert headers[..|headers|] == headers;
    assert buffer[..offset] == buffer[..];
    r := Some(buffer);
  }

  // ----- reading ---------------------------------------------------------------------------

  datatype Parsed<+T> = Malformed | Parsed(value: T, rest: Bytes)

  /** The four bytes at the front of b as a number. */
  function ReadU32(b: Bytes): nat
    requires |b| >= 4
  {
    ((b[0] as int * 0x100 + b[1] as int) * 0x100 + b[2] as int) * 0x100 + b[3] as int
  }

  lemma {:induction false} ReadU32Is(b: Bytes)
    requires |b| >= 4
    ensures ReadU32(b) < U32 && BigEndian(ReadU32(b), 4) == b[..4]
  {
    var one: int := b[0];
    var two := one * 0x100 + b[1] as int;
    var three := two * 0x100 + b[2] as int;
    assert BigEndian(one, 1) == [b[0]];
    assert BigEndian(two, 2) == [b[0], b[1]];
    assert BigEndian(three, 3) == [b[0], b[1], b[2]];
  }

  lemma {:induction false} LengthReadBack(n: nat, rest: Bytes)
    requires n < U32
    ensures ReadU32(BigEndian(n, 4) + rest) == n
  {
    FourBytes(n);
  }

  /** One length-prefixed run of bytes, and what follows it. */
  function Taken(b: Bytes): Parsed<Bytes> {
    if |b| < 4 || |b| - 4 < ReadU32(b) then Malformed
    else Parsed(b[4..4 + ReadU32(b)], b[4 + ReadU32(b)..])
  }

  function TakenHeader(b: Bytes): Parsed<Header> {
    match Taken(b)
    case Malformed => Malformed
    case Parsed(name, after) =>
      match Taken(after)
      case Malformed => Malformed
      case Parsed(value, rest) => Parsed(Header(name, value), rest)
  }

  function TakenAll(b: Bytes, count: nat): Parsed<seq<Header>> {
    if count == 0 then Parsed([], b)
    else
      match TakenHeader(b)
      case Malformed => Malformed
      case Parsed(h, after) => Following(h, TakenAll(after, count - 1))
  }

  function Following(h: Header, others: Parsed<seq<Header>>): Parsed<seq<Header>> {
    if others.Malformed? then Malformed else Parsed([h] + others.value, others.rest)
  }

  /** A count and that many headers, with nothing after them. */
  function DecodedList(b: Bytes): Option<seq<Header>>
    requires |b| >= 4
  {
    match TakenAll(b[4..], ReadU32(b))
    case Malformed => None
    case Parsed(headers, rest) => if rest == [] then Some(headers) else None
  }

  function Decoded(b: Bytes): Option<seq<Header>> {
    if |b| < 5 || b[0] != 1 then None else DecodedList(b[1..])
  }

  method Take(buffer: array<byte>, offset: nat) returns (slice: Option<Bytes>, next: nat)
    requires offset <= buffer.Length
    ensures match Taken(buffer[offset..])
            case Malformed => slice.None?
            case Parsed(bytes, rest) => slice == Some(bytes) && next <= buffer.Length && rest == buffer[next..]
  {
    next := offset;
    if next + 4 > buffer.Length { return None, next; }
    var length := ReadU32(buffer[next..next + 4]);
    next := next + 4;
    if next + length > buffer.Length { return None, next; }
    ghost var all := buffer[offset..];
    assert all[4..4 + length] == buffer[next..next + length] && all[4 + length..] == buffer[next + length..];
    slice := Some(buffer[next..next + length]);
    next := next + length;
  }

  method TakeHeader(buffer: array<byte>, offset: nat) returns (h: Option<Header>, next: nat)
    requires offset <= buffer.Length
    ensures match TakenHeader(buffer[offset..])
            case Malformed => h.None?
            case Parsed(header, rest) => h == Some(header) && next <= buffer.Length && rest == buffer[next..]
  {
    var name, middle := Take(buffer, offset);
    if name.None? { return None, offset; }
    var value, end := Take(buffer, middle);
    if value.None? { return None, offset; }
    return Some(Header(name.value, value.value)), end;
  }

  /** What the remaining headers add to those already read. */
  function After(headers: seq<Header>, others: Parsed<seq<Header>>): Parsed<seq<Header>> {
    if others.Malformed? then Malformed else Parsed(headers + others.value, others.rest)
  }

  lemma {:induction false} NextTaken(taken: seq<Header>, b: Bytes, count: nat)
    requires count > 0
    ensures match TakenHeader(b)
            case Malformed => After(taken, TakenAll(b, count)).Malformed?
            case Parsed(h, rest) => After(taken, TakenAll(b, count)) == After(taken + [h], TakenAll(rest, count - 1))
  {
    match TakenHeader(b)
    case Malformed =>
    case Parsed(h, rest) =>
      var others := TakenAll(rest, count - 1);
      if others.Parsed? { assert taken + ([h] + others.value) == taken + [h] + others.value; }
  }

  lemma {:induction false} NothingTaken(all: Parsed<seq<Header>>)
    ensures After([], all) == all
  {
    if all.Parsed? { assert [] + all.value == all.value; }
  }

  method TakeAll(buffer: array<byte>, count: nat, start: nat) returns (headers: Option<seq<Header>>, next: nat)
    requires start <= buffer.Length
    ensures match TakenAll(buffer[start..], count)
            case Malformed => headers.None?
            case Parsed(hs, rest) => headers == Some(hs) && next <= buffer.Length && rest == buffer[next..]
  {
    ghost var all := TakenAll(buffer[start..], count);
    NothingTaken(all);
    var taken: seq<Header> := [];
    next := start;
    for i := 0 to count
      invariant next <= buffer.Length
      invariant all == After(taken, TakenAll(buffer[next..], count - i))
    {
      NextTaken(taken, buffer[next..], count - i);
      var h, end := TakeHeader(buffer, next);
      if h.None? { return None, start; }
      taken := taken + [h.value];
      next := end;
    }
    assert taken + [] == taken;
    headers := Some(taken);
  }

  method DecodeHeaders(buffer: array<byte>) returns (r: Option<seq<Header>>)
    ensures r == Decoded(buffer[..])
  {
    if buffer.Length < 5 || buffer[0] != 1 { return None; }
    assert buffer[..][1..] == buffer[1..] && buffer[1..][4..] == buffer[5..];
    var headers, offset := TakeAll(buffer, ReadU32(buffer[1..]), 5);
    return if headers.None? || offset != buffer.Length then None else headers;
  }

  // ----- the two directions --------------------------------------------------------------------

  lemma {:induction false} TakenPrefixed(x: Bytes, rest: Bytes)
    requires |x| < U32
    ensures Taken(Prefixed(x) + rest) == Parsed(x, rest)
  {
    var b := Prefixed(x) + rest;
    assert b == BigEndian(|x|, 4) + (x + rest);
    LengthReadBack(|x|, x + rest);
    assert b[4..] == x + rest;
    assert b[4..4 + |x|] == b[4..][..|x|] == x;
    assert b[4 + |x|..] == b[4..][|x|..] == rest;
  }

  lemma {:induction false} TakenEncoded(h: Header, rest: Bytes)
    requires |h.name| < U32 && |h.value| < U32
    ensures TakenHeader(EncodedOne(h) + rest) == Parsed(h, rest)
  {
    Associative(Prefixed(h.name), Prefixed(h.value), rest);
    TakenPrefixed(h.name, Prefixed(h.value) + rest);
    TakenPrefixed(h.value, rest);
  }

  lemma {:induction false} EncodedFront(headers: seq<Header>, rest: Bytes)
    requires headers != []
    ensures EncodedAll(headers) + rest == EncodedOne(headers[0]) + (EncodedAll(headers[1..]) + rest)
  {
    Associative(EncodedOne(headers[0]), EncodedAll(headers[1..]), rest);
  }

  /** A parse of what is encoded gives the headers and what follows them. */
  lemma {:induction false} TakenAllEncoded(headers: seq<Header>, rest: Bytes)
    requires Fits(headers)
    ensures TakenAll(EncodedAll(headers) + rest, |headers|) == Parsed(headers, rest)
  {
    if headers == [] {
      assert EncodedAll(headers) + rest == rest;
    } else {
      EncodedFront(headers, rest);
      TakenAllEncoded(headers[1..], rest);
      TakenOneMore(headers[0], headers[1..], EncodedAll(headers[1..]) + rest, rest);
      assert [headers[0]] + headers[1..] == headers;
    }
  }

  lemma {:induction false} TakenOneMore(h: Header, headers: seq<Header>, after: Bytes, rest: Bytes)
    requires |h.name| < U32 && |h.value| < U32 && TakenAll(after, |headers|) == Parsed(headers, rest)
    ensures TakenAll(EncodedOne(h) + after, |headers| + 1) == Parsed([h] + headers, rest)
  {
    TakenEncoded(h, after);
  }

  /** Decoding undoes encoding, for every list whose lengths fit. */
  lemma {:induction false} DecodeEncoded(headers: seq<Header>)
    requires Fits(headers)
    ensures Decoded(Encoded(headers)) == Some(headers)
  {
    var b := Encoded(headers);
    assert b[1..] == BigEndian(|headers|, 4) + EncodedAll(headers);
    LengthReadBack(|headers|, EncodedAll(headers));
    assert b[1..][4..] == EncodedAll(headers) + [];
    TakenAllEncoded(headers, []);
  }

  lemma {:induction false} TakenIs(b: Bytes)
    requires Taken(b).Parsed?
    ensures |Taken(b).value| < U32 && b == Prefixed(Taken(b).value) + Taken(b).rest
  {
    ReadU32Is(b);
  }

  lemma {:induction false} TakenHeaderIs(b: Bytes)
    requires TakenHeader(b).Parsed?
    ensures var p := TakenHeader(b); |p.value.name| < U32 && |p.value.value| < U32 && b == EncodedOne(p.value) + p.rest
  {
    var name := Taken(b);
    var value := Taken(name.rest);
    TakenIs(b);
    TakenIs(name.rest);
    Associative(Prefixed(name.value), Prefixed(value.value), value.rest);
  }

  /** A parse gives back its input: the headers encoded, then what follows them. */
  predicate Reads(b: Bytes, p: Parsed<seq<Header>>) {
    p.Parsed? ==>
      && (forall h <- p.value :: |h.name| < U32 && |h.value| < U32)
      && b == EncodedAll(p.value) + p.rest
  }

  lemma {:induction false} ReadsFollowing(h: Header, b: Bytes, others: Parsed<seq<Header>>)
    requires |h.name| < U32 && |h.value| < U32 && Reads(b, others)
    ensures Reads(EncodedOne(h) + b, Following(h, others))
  {
    if others.Parsed? {
      assert ([h] + others.value)[1..] == others.value;
      Associative(EncodedOne(h), EncodedAll(others.value), others.rest);
    }
  }

  lemma {:induction false} TakenAllIs(b: Bytes, count: nat)
    ensures Reads(b, TakenAll(b, count))
  {
    if count == 0 {
      assert b == EncodedAll([]) + b;
    } else if TakenHeader(b).Parsed? {
      TakenAllIs(TakenHeader(b).rest, count - 1);
      TakenHeaderReads(b, TakenAll(TakenHeader(b).rest, count - 1));
    }
  }

  lemma {:induction false} TakenHeaderReads(b: Bytes, others: Parsed<seq<Header>>)
    requires TakenHeader(b).Parsed? && Reads(TakenHeader(b).rest, others)
    ensures Reads(b, Following(TakenHeader(b).value, others))
  {
    TakenHeaderIs(b);
    ReadsFollowing(TakenHeader(b).value, TakenHeader(b).rest, others);
  }

  lemma {:induction false} TakenAllCounts(b: Bytes, count: nat)
    ensures TakenAll(b, count).Parsed? ==> |TakenAll(b, count).value| == count
  {
    if count > 0 && TakenHeader(b).Parsed? { TakenAllCounts(TakenHeader(b).rest, count - 1); }
  }

  lemma {:induction false} EncodeDecodedList(b: Bytes)
    requires |b| >= 4 && DecodedList(b).Some?
    ensures var headers := DecodedList(b).value; Fits(headers) && b == BigEndian(|headers|, 4) + EncodedAll(headers)
  {
    ReadU32Is(b);
    TakenAllIs(b[4..], ReadU32(b));
    TakenAllCounts(b[4..], ReadU32(b));
    assert b == b[..4] + b[4..];
  }

  /** Any bytes that decode are exactly what encoding gives for the result. */
  lemma {:induction false} EncodeDecoded(b: Bytes)
    requires Decoded(b).Some?
    ensures Fits(Decoded(b).value) && Encoded(Decoded(b).value) == b
  {
    EncodeDecodedList(b[1..]);
    assert b == [1] + b[1..];
  }
}
