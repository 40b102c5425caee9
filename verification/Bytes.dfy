/** Octets and the integer encodings the program stores them in. */
module Bytes {
  newtype byte = x: int | 0 <= x < 256

  const U16 := 0x1_0000
  const I32 := 0x8000_0000
  const U32 := 0x1_0000_0000
  const I64 := 0x8000_0000_0000_0000
  const U64 := 0x1_0000_0000_0000_0000

  /** A uint16_t as memcpy lays it out on the (little-endian) host. */
  function Host16(n: nat): (r: seq<byte>)
    requires n < U16
    ensures |r| == 2
  {
    [(n % 256) as byte, (n / 256) as byte]
  }

  /** The uint16_t a host-order load finds at p. */
  function GetHost16(m: seq<byte>, p: nat): (n: nat)
    requires p + 2 <= |m|
    ensures n < U16
  {
    m[p] as nat + 256 * m[p + 1] as nat
  }

  lemma GetPutHost16(m: seq<byte>, p: nat, n: nat)
    requires n < U16 && p + 2 <= |m| && m[p..p + 2] == Host16(n)
    ensures GetHost16(m, p) == n
  {
    assert m[p] == m[p..p + 2][0] && m[p + 1] == m[p..p + 2][1];
  }

  /** A uint16_t in network order. */
  function Put16(n: nat): (r: seq<byte>)
    requires n < U16
    ensures |r| == 2
  {
    [(n / 256) as byte, (n % 256) as byte]
  }

  /** The uint16_t in network order at p. */
  function GetNet16(m: seq<byte>, p: nat): (n: nat)
    requires p + 2 <= |m|
    ensures n < U16
  {
    256 * m[p] as nat + m[p + 1] as nat
  }

  /** A uint32_t in network order. */
  function Put32(n: nat): (r: seq<byte>)
    requires n < U32
    ensures |r| == 4
  {
    Put16(n / U16) + Put16(n % U16)
  }

  function Zeros(n: nat): (r: seq<byte>)
    ensures |r| == n
  {
    seq(n, _ => 0 as byte)
  }

  lemma Assoc<T>(a: seq<T>, b: seq<T>, c: seq<T>)
    ensures a + b + c == a + (b + c)
  {
  }
}
