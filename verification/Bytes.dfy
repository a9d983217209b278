/** Raw bytes and the network byte order of the binary protocol's header fields. */
module Bytes {
  import opened CText

  type Byte = n: nat | n < 0x100
  type U16 = n: nat | n < 0x1_0000

  /** `htons` and `htonl`, written out. */
  function BE16(n: U16): (b: seq<Byte>)
    ensures |b| == 2
  {
    [n / 0x100, n % 0x100]
  }

  function BE32(n: UInt): (b: seq<Byte>)
    ensures |b| == 4
  {
    BE16(n / 0x1_0000) + BE16(n % 0x1_0000)
  }

  /** `ntohs` and `ntohl` of the field at offset `i`. */
  function At16(b: seq<Byte>, i: nat): U16
    requires i + 2 <= |b|
  {
    b[i] as int * 0x100 + b[i + 1]
  }

  function At32(b: seq<Byte>, i: nat): UInt
    requires i + 4 <= |b|
  {
    At16(b, i) as int * 0x1_0000 + At16(b, i + 2)
  }

  lemma BE16Reads(n: U16, before: seq<Byte>, after: seq<Byte>)
    ensures At16(before + BE16(n) + after, |before|) == n
  {
    var b := before + BE16(n) + after;
    assert b[|before|] == n / 0x100 && b[|before| + 1] == n % 0x100;
  }

  lemma BE32Reads(n: UInt, before: seq<Byte>, after: seq<Byte>)
    ensures At32(before + BE32(n) + after, |before|) == n
  {
    var high, low := BE16(n / 0x1_0000), BE16(n % 0x1_0000);
    var b := before + BE32(n) + after;
    assert b == before + high + (low + after);
    BE16Reads(n / 0x1_0000, before, low + after);
    assert b == (before + high) + low + after;
    BE16Reads(n % 0x1_0000, before + high, after);
  }

  /** The most significant byte comes first. */
  lemma NetworkOrder(n: UInt)
    ensures n < 0x1_0000 ==> BE16(n)[0] as int * 0x100 + BE16(n)[1] as int == n
    ensures var b := BE32(n);
            b[0] as int * 0x100_0000 + b[1] as int * 0x1_0000 + b[2] as int * 0x100 + b[3] as int == n
  {
  }

  const Zero32: seq<Byte> := [0, 0, 0, 0]
}
