/** Octets, the unsigned machine widths of the sender, and big-endian fields. */
module Bytes {
  const POW16: int := 0x1_0000
  const POW32: int := 0x1_0000_0000
  const POW64: int := 0x1_0000_0000_0000_0000

  type byte = n: int | 0 <= n < 0x100
  type u16 = n: int | 0 <= n < POW16
  type u32 = n: int | 0 <= n < POW32
  type u64 = n: int | 0 <= n < POW64
  type i64 = n: int | -0x8000_0000_0000_0000 <= n < 0x8000_0000_0000_0000

  type Octets = seq<byte>

  datatype Option<+T> = None | Some(value: T)
  datatype Result<+T, +E> = Ok(value: T) | Err(error: E)

  function Be16(n: u16): (b: Octets)
    ensures |b| == 2
  {
    [n / 0x100, n % 0x100]
  }

  function Be32(n: u32): (b: Octets)
    ensures |b| == 4
  {
    Be16(n / POW16) + Be16(n % POW16)
  }

  function Be64(n: u64): (b: Octets)
    ensures |b| == 8
  {
    Be32(n / POW32) + Be32(n % POW32)
  }

  function FromBe16(b: Octets): (n: u16)
    requires |b| == 2
  {
    (b[0] as int) * 0x100 + b[1]
  }

  function FromBe32(b: Octets): (n: u32)
    requires |b| == 4
  {
    FromBe16(b[..2]) * POW16 + FromBe16(b[2..])
  }

  /** A big-endian field determines its value and is determined by it. */
  lemma Be16RoundTrip(n: u16, b: Octets)
    requires |b| == 2
    ensures FromBe16(Be16(n)) == n
    ensures Be16(FromBe16(b)) == b
  {
  }

  lemma Be32RoundTrip(n: u32, b: Octets)
    requires |b| == 4
    ensures FromBe32(Be32(n)) == n
    ensures Be32(FromBe32(b)) == b
  {
    assert Be32(n)[..2] == Be16(n / POW16) && Be32(n)[2..] == Be16(n % POW16);
    var hi, lo := FromBe16(b[..2]), FromBe16(b[2..]);
    assert FromBe32(b) / POW16 == hi && FromBe32(b) % POW16 == lo;
    Be16RoundTrip(hi, b[..2]);
    Be16RoundTrip(lo, b[2..]);
    assert b == b[..2] + b[2..];
  }

  // ------------------------------------------------------------------
  // A receiver's reading of a field in the middle of a packet
  // ------------------------------------------------------------------

  function U16At(b: Octets, i: nat): int
    requires i + 2 <= |b|
  {
    b[i] as int * 0x100 + b[i + 1]
  }

  function U32At(b: Octets, i: nat): int
    requires i + 4 <= |b|
  {
    b[i] as int * 0x100_0000 + b[i + 1] as int * 0x1_0000 + b[i + 2] as int * 0x100 + b[i + 3]
  }

  /** Fields travel most significant octet first. */
  lemma ReadField16(b: Octets, i: nat, n: u16)
    requires i + 2 <= |b|
    ensures FromBe16(b[i..i + 2]) == U16At(b, i)
    ensures b[i..i + 2] == Be16(n) ==> U16At(b, i) == n
  {
    Be16RoundTrip(n, b[i..i + 2]);
  }

  lemma ReadField32(b: Octets, i: nat, n: u32)
    requires i + 4 <= |b|
    ensures FromBe32(b[i..i + 4]) == U32At(b, i)
    ensures b[i..i + 4] == Be32(n) ==> U32At(b, i) == n
  {
    var f := b[i..i + 4];
    assert f[..2] == [b[i], b[i + 1]] && f[2..] == [b[i + 2], b[i + 3]];
    Be32RoundTrip(n, f);
  }
}
