/** Bytes, and unsigned integers written big-endian. */
module ByteStrings {
  type byte = x: int | 0 <= x < 0x100
  type Bytes = seq<byte>

  /** ASCII text as its bytes. */
  function Ascii(text: string): Bytes {
    seq(|text|, i requires 0 <= i < |text| => text[i] as int % 0x100)
  }

  /** 256 to the n. */
  function Pow256(n: nat): nat {
    if n == 0 then 1 else 0x100 * Pow256(n - 1)
  }

  /** The low n bytes of a number, most significant first. */
  function BigEndian(value: nat, n: nat): (b: Bytes)
    ensures |b| == n
  {
    if n == 0 then [] else BigEndian(value / 0x100, n - 1) + [value % 0x100]
  }

  function Value(b: Bytes): nat {
    if b == [] then 0 else 0x100 * Value(b[..|b| - 1]) + b[|b| - 1]
  }

  lemma {:induction false} ValueOfBigEndian(value: nat, n: nat)
    requires value < Pow256(n)
    ensures Value(BigEndian(value, n)) == value
  {
    if n > 0 {
      ValueOfBigEndian(value / 0x100, n - 1);
      var b := BigEndian(value, n);
      assert b[..n - 1] == BigEndian(value / 0x100, n - 1);
    }
  }
}
