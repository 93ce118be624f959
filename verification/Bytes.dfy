/** Little-endian integers in memory, as the C programs lay out their structs. */
module Bytes {

  type byte = n: nat | n < 0x100
  type uint32 = n: nat | n < 0x1_0000_0000
  type int32 = n: int | -0x8000_0000 <= n < 0x8000_0000
  type int64 = n: int | -0x8000_0000_0000_0000 <= n < 0x8000_0000_0000_0000

  function Put32(n: uint32): (bs: seq<byte>)
    ensures |bs| == 4
  {
    [n % 0x100, n / 0x100 % 0x100, n / 0x1_0000 % 0x100, n / 0x100_0000]
  }

  function Get32(bs: seq<byte>): uint32
    requires |bs| == 4
  {
    var a: int, b: int, c: int, d: int := bs[0], bs[1], bs[2], bs[3];
    a + 0x100 * b + 0x1_0000 * c + 0x100_0000 * d
  }

  lemma GetPut32(n: uint32)
    ensures Get32(Put32(n)) == n
  {
    var a := n / 0x100;
    var b := n / 0x1_0000;
    assert b == a / 0x100;
    assert n / 0x100_0000 == b / 0x100;
  }

  /** Two's complement. */
  function ToUnsigned(n: int32): uint32 {
    if n < 0 then n + 0x1_0000_0000 else n
  }

  function ToSigned(n: uint32): int32 {
    if n < 0x8000_0000 then n else n - 0x1_0000_0000
  }

  function PutInt32(n: int32): (bs: seq<byte>)
    ensures |bs| == 4
  {
    Put32(ToUnsigned(n))
  }

  function GetInt32(bs: seq<byte>): int32
    requires |bs| == 4
  {
    ToSigned(Get32(bs))
  }

  lemma GetPutInt32(n: int32)
    ensures GetInt32(PutInt32(n)) == n
  {
    GetPut32(ToUnsigned(n));
  }

  function PutInt64(n: int64): (bs: seq<byte>)
    ensures |bs| == 8
  {
    var u := if n < 0 then n + 0x1_0000_0000_0000_0000 else n;
    Put32(u % 0x1_0000_0000) + Put32(u / 0x1_0000_0000)
  }

  function GetInt64(bs: seq<byte>): int64
    requires |bs| == 8
  {
    var u := Get32(bs[..4]) + 0x1_0000_0000 * Get32(bs[4..]);
    if u < 0x8000_0000_0000_0000 then u else u - 0x1_0000_0000_0000_0000
  }

  lemma GetPutInt64(n: int64)
    ensures GetInt64(PutInt64(n)) == n
  {
    var u := if n < 0 then n + 0x1_0000_0000_0000_0000 else n;
    var bs := PutInt64(n);
    assert bs[..4] == Put32(u % 0x1_0000_0000);
    assert bs[4..] == Put32(u / 0x1_0000_0000);
    GetPut32(u % 0x1_0000_0000);
    GetPut32(u / 0x1_0000_0000);
  }
}
